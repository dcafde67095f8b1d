/** A reader of JSON texts, from the grammar of RFC 8259 (sections 2 to 7) alone: it knows nothing of
    how texts are printed. Strings are read unit by unit. */
module JsonReader {
  import opened JsonText
  import opened CanonicalJson

  datatype Parsed<+V> = Read(value: V, rest: Text) | Bad

  // ------------------------------------------------------------- strings (section 7)

  function HexValue(u: CodeUnit): int {
    if 0x30 <= u <= 0x39 then u - 0x30
    else if 0x41 <= u <= 0x46 then u - 0x41 + 10
    else if 0x61 <= u <= 0x66 then u - 0x61 + 10
    else -1
  }

  /** The unit that a letter after a backslash stands for, -1 for none. */
  function Meaning(letter: CodeUnit): int {
    match letter
    case 0x22 => 0x22  // quotation mark
    case 0x5c => 0x5c  // reverse solidus
    case 0x2f => 0x2f  // solidus
    case 0x62 => 0x08  // b: backspace
    case 0x66 => 0x0c  // f: form feed
    case 0x6e => 0x0a  // n: line feed
    case 0x72 => 0x0d  // r: carriage return
    case 0x74 => 0x09  // t: tab
    case _ => -1
  }

  /** The four hexadecimal digits of t[2..6], -1 if they are not there. */
  function FourHex(t: Text): int {
    if |t| < 6 || (exists i | 2 <= i < 6 :: HexValue(t[i]) < 0) then -1
    else HexValue(t[2]) * 4096 + HexValue(t[3]) * 256 + HexValue(t[4]) * 16 + HexValue(t[5])
  }

  function After(unit: int, p: Parsed<Text>): Parsed<Text>
    requires 0 <= unit < 0x1_0000
  {
    if p.Read? then Read([unit as CodeUnit] + p.value, p.rest) else Bad
  }

  /** The rest of a string after its opening quotation mark. */
  function ReadUnits(t: Text): (p: Parsed<Text>)
    ensures p.Read? ==> |p.rest| < |t|
    decreases |t|
  {
    if t == [] then Bad
    else if t[0] == 0x22 then Read([], t[1..])
    else if t[0] != 0x5c then if t[0] < 0x20 then Bad else After(t[0], ReadUnits(t[1..]))
    else if |t| < 2 then Bad
    else if t[1] == 0x75 then if FourHex(t) < 0 then Bad else After(FourHex(t), ReadUnits(t[6..]))
    else if Meaning(t[1]) < 0 then Bad else After(Meaning(t[1]), ReadUnits(t[2..]))
  }

  // -------------------------------------------------------- numbers (section 6), white space

  predicate IsSpace(u: CodeUnit) { u == 0x20 || u == 0x09 || u == 0x0a || u == 0x0d }

  function SkipSpace(t: Text): (r: Text)
    ensures |r| <= |t|
  {
    if t != [] && IsSpace(t[0]) then SkipSpace(t[1..]) else t
  }

  /** How many units at the front may belong to a number. */
  function NumberRun(t: Text): (n: nat)
    ensures n <= |t|
  {
    if t != [] && InNumeral(t[0]) then 1 + NumberRun(t[1..]) else 0
  }

  ghost function ReadNumber(t: Text): (p: Parsed<Value>)
    ensures p.Read? ==> |p.rest| < |t|
  {
    var n := NumberRun(t);
    if IsNumeral(t[..n]) then NumeralUnits(t[..n]); Read(Number(t[..n]), t[n..]) else Bad
  }

  // --------------------------------------------------- values, arrays, objects (sections 3 to 5)

  predicate Starts(t: Text, word: Text) { |word| <= |t| && t[..|word|] == word }

  ghost function ReadValue(t: Text): (p: Parsed<Value>)
    ensures p.Read? ==> |p.rest| < |t|
    decreases |t|, 0
  {
    if t == [] then Bad
    else if t[0] == 0x22 then
      var p := ReadUnits(t[1..]);
      if p.Read? then Read(Str(p.value), p.rest) else Bad
    else if t[0] == 0x5b then
      var inside := SkipSpace(t[1..]);
      if inside != [] && inside[0] == 0x5d then Read(Arr([]), inside[1..])
      else
        var p := ReadItems(inside);
        if p.Read? then Read(Arr(p.value), p.rest) else Bad
    else if t[0] == 0x7b then
      var inside := SkipSpace(t[1..]);
      if inside != [] && inside[0] == 0x7d then Read(Obj([]), inside[1..])
      else
        var p := ReadMembers(inside);
        if p.Read? then Read(Obj(p.value), p.rest) else Bad
    else if Starts(t, [0x6e, 0x75, 0x6c, 0x6c]) then Read(Null, t[4..])
    else if Starts(t, [0x74, 0x72, 0x75, 0x65]) then Read(Bool(true), t[4..])
    else if Starts(t, [0x66, 0x61, 0x6c, 0x73, 0x65]) then Read(Bool(false), t[5..])
    else ReadNumber(t)
  }

  /** One or more items, up to the closing bracket. */
  ghost function ReadItems(t: Text): (p: Parsed<seq<Value>>)
    ensures p.Read? ==> |p.rest| < |t|
    decreases |t|, 1
  {
    var first := ReadValue(t);
    if first.Bad? then Bad
    else
      var next := SkipSpace(first.rest);
      if next == [] then Bad
      else if next[0] == 0x5d then Read([first.value], next[1..])
      else if next[0] != 0x2c then Bad
      else
        var more := ReadItems(SkipSpace(next[1..]));
        if more.Read? then Read([first.value] + more.value, more.rest) else Bad
  }

  ghost function ReadMember(t: Text): (p: Parsed<Member>)
    ensures p.Read? ==> |p.rest| < |t|
    decreases |t|, 0
  {
    if t == [] || t[0] != 0x22 then Bad
    else
      var key := ReadUnits(t[1..]);
      if key.Bad? then Bad
      else
        var colon := SkipSpace(key.rest);
        if colon == [] || colon[0] != 0x3a then Bad
        else
          var value := ReadValue(SkipSpace(colon[1..]));
          if value.Read? then Read(Member(key.value, value.value), value.rest) else Bad
  }

  /** One or more members, up to the closing brace. */
  ghost function ReadMembers(t: Text): (p: Parsed<seq<Member>>)
    ensures p.Read? ==> |p.rest| < |t|
    decreases |t|, 1
  {
    var first := ReadMember(t);
    if first.Bad? then Bad
    else
      var next := SkipSpace(first.rest);
      if next == [] then Bad
      else if next[0] == 0x7d then Read([first.value], next[1..])
      else if next[0] != 0x2c then Bad
      else
        var more := ReadMembers(SkipSpace(next[1..]));
        if more.Read? then Read([first.value] + more.value, more.rest) else Bad
  }

  /** A JSON text is one value between white space. */
  ghost function ReadText(t: Text): Parsed<Value> {
    var p := ReadValue(SkipSpace(t));
    if p.Read? && SkipSpace(p.rest) == [] then p else Bad
  }
}

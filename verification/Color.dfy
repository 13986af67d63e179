/** Colour values: `#` and six upper-case hexadecimal digits. */
module Color {
  import opened Wrappers

  datatype ColorError = ColorEmpty | ColorInvalidFormat

  /** A colour as the domain holds it. Only `NewColor` makes one from text. */
  datatype Color = Color(hex: string)

  /** The characters `strings.TrimSpace` removes (Unicode White_Space). */
  predicate IsSpace(c: char) {
    || '\U{0009}' <= c <= '\U{000D}'
    || c == ' ' || c == '\U{0085}' || c == '\U{00A0}' || c == '\U{1680}'
    || '\U{2000}' <= c <= '\U{200A}'
    || c == '\U{2028}' || c == '\U{2029}' || c == '\U{202F}' || c == '\U{205F}' || c == '\U{3000}'
  }

  function TrimLeft(s: string): (r: string)
    ensures |r| <= |s|
    ensures r != [] ==> !IsSpace(r[0])
  {
    if s != [] && IsSpace(s[0]) then TrimLeft(s[1..]) else s
  }

  function TrimRight(s: string): (r: string)
    ensures r <= s
    ensures r != [] ==> !IsSpace(r[|r| - 1])
  {
    if s != [] && IsSpace(s[|s| - 1]) then TrimRight(s[..|s| - 1]) else s
  }

  function TrimSpace(s: string): string {
    TrimRight(TrimLeft(s))
  }

  predicate IsHexDigit(c: char) {
    '0' <= c <= '9' || 'a' <= c <= 'f' || 'A' <= c <= 'F'
  }

  function UpperHex(c: char): (r: char)
    ensures IsHexDigit(c) ==> '0' <= r <= '9' || 'A' <= r <= 'F'
  {
    if 'a' <= c <= 'f' then (c as int - 'a' as int + 'A' as int) as char else c
  }

  function Upper(s: string): (r: string)
    ensures |r| == |s|
    ensures forall i :: 0 <= i < |s| ==> r[i] == UpperHex(s[i])
  {
    seq(|s|, i requires 0 <= i < |s| => UpperHex(s[i]))
  }

  /** What `normalizeHex` computes. Length is counted in characters, where the program counts
      bytes: the two differ only on non-ASCII text, which fails the digit test with the same error. */
  function NormalizedHex(value: string): Result<string, ColorError> {
    var v := TrimSpace(value);
    if v == "" then Err(ColorEmpty)
    else
      var digits := if v[0] == '#' then v[1..] else v;
      if |digits| == 6 && forall c | c in digits :: IsHexDigit(c)
      then Ok("#" + Upper(digits))
      else Err(ColorInvalidFormat)
  }

  /** `normalizeHex`: trims, drops one `#`, then scans the digits. */
  method NormalizeHex(value: string) returns (r: Result<string, ColorError>)
    ensures r == NormalizedHex(value)
  {
    var v := TrimSpace(value);
    if v == "" {
      return Err(ColorEmpty);
    }
    if v[0] == '#' {
      v := v[1..];
    }
    if |v| != 6 {
      return Err(ColorInvalidFormat);
    }
    for i := 0 to |v|
      invariant forall j :: 0 <= j < i ==> IsHexDigit(v[j])
    {
      if !IsHexDigit(v[i]) {
        assert v[i] in v;
        return Err(ColorInvalidFormat);
      }
    }
    return Ok("#" + Upper(v));
  }

  function NewColor(value: string): Result<Color, ColorError> {
    var hex :- NormalizedHex(value);
    Ok(Color(hex))
  }

  /** `Color.Validate`: the text must still normalize. */
  function Validate(c: Color): Option<ColorError> {
    if c.hex == "" then Some(ColorEmpty)
    else match NormalizedHex(c.hex)
      case Ok(_) => None
      case Err(e) => Some(e)
  }

  /** A colour in the form `NewColor` gives. */
  predicate IsNormal(c: Color) {
    && |c.hex| == 7 && c.hex[0] == '#'
    && forall i :: 1 <= i < 7 ==> '0' <= c.hex[i] <= '9' || 'A' <= c.hex[i] <= 'F'
  }

  /** `NewColor` gives only normal colours, and gives a normal colour back unchanged:
      this is what makes colours survive the trip through a text column. */
  lemma NewColorNormalizes(value: string, c: Color)
    ensures NewColor(value) == Ok(c) ==> IsNormal(c)
    ensures IsNormal(c) <==> NewColor(c.hex) == Ok(c)
    ensures Validate(c) == match NewColor(c.hex) case Ok(_) => None case Err(e) => Some(e)
  {
    forall s: string, d: Color | NewColor(s) == Ok(d)
      ensures IsNormal(d)
    {
      var v := TrimSpace(s);
      var digits := if v[0] == '#' then v[1..] else v;
      forall i | 1 <= i < 7
        ensures '0' <= d.hex[i] <= '9' || 'A' <= d.hex[i] <= 'F'
      {
        assert digits[i - 1] in digits;
        assert d.hex[i] == UpperHex(digits[i - 1]);
      }
    }
    if IsNormal(c) {
      var digits := c.hex[1..];
      assert TrimSpace(c.hex) == c.hex;
      assert forall x | x in digits :: IsHexDigit(x);
      assert Upper(digits) == digits;
      assert c.hex == "#" + digits;
    }
  }

  const HEX_UPPER := "0123456789ABCDEF"
  const HEX_LOWER := "0123456789abcdef"

  /** `d` is the upper-case form of the hexadecimal digit `c`. */
  ghost predicate IsUpperForm(c: char, d: char) {
    exists v :: 0 <= v < 16 && c in [HEX_UPPER[v], HEX_LOWER[v]] && d == HEX_UPPER[v]
  }

  lemma UpperForms(c: char)
    ensures IsHexDigit(c) ==> IsUpperForm(c, UpperHex(c))
    ensures (exists d :: IsUpperForm(c, d)) ==> IsHexDigit(c)
  {
    if IsHexDigit(c) {
      var v := if c <= '9' then c as int - '0' as int else if c <= 'F' then c as int - 'A' as int + 10
               else c as int - 'a' as int + 10;
      assert c in [HEX_UPPER[v], HEX_LOWER[v]];
    }
  }

  /** Unicode's White_Space. */
  predicate IsWhiteSpace(c: char) {
    c in {
      '\U{0009}', '\U{000A}', '\U{000B}', '\U{000C}', '\U{000D}', '\U{0020}', '\U{0085}', '\U{00A0}', '\U{1680}',
      '\U{2000}', '\U{2001}', '\U{2002}', '\U{2003}', '\U{2004}', '\U{2005}', '\U{2006}', '\U{2007}', '\U{2008}',
      '\U{2009}', '\U{200A}', '\U{2028}', '\U{2029}', '\U{202F}', '\U{205F}', '\U{3000}'}
  }

  ghost predicate AllSpace(s: string) {
    forall i :: 0 <= i < |s| ==> IsWhiteSpace(s[i])
  }

  lemma SameSpace(c: char)
    ensures IsSpace(c) <==> IsWhiteSpace(c)
  {
  }

  lemma SameSpaces(s: string)
    ensures AllTrimmed(s) <==> AllSpace(s)
  {
    forall i | 0 <= i < |s| {
      SameSpace(s[i]);
    }
    hide IsSpace, IsWhiteSpace;
  }

  /** Exactly the accepted texts: white space around an optional `#` and six hexadecimal digits. The colour
      is `#` and the upper-case forms of those digits. A text of white space alone is empty, any other is malformed. */
  lemma AcceptedTexts(value: string)
    ensures NewColor(value).Ok? <==>
      exists left: string, hash: string, digits: string, right: string ::
        IsPadded(value, left, hash, digits, right)
    ensures forall left: string, hash: string, digits: string, right: string |
      IsPadded(value, left, hash, digits, right) ::
      NewColor(value).Ok? && IsColorOf(digits, NewColor(value).value)
    ensures NewColor(value) == Err(ColorEmpty) <==> AllSpace(value)
  {
    if NewColor(value).Ok? {
      var left, hash, digits, right := PaddingOfAccepted(value);
    }
    forall left: string, hash: string, digits: string, right: string | IsPadded(value, left, hash, digits, right)
      ensures NewColor(value).Ok? && IsColorOf(digits, NewColor(value).value)
    {
      PaddedIsAccepted(value, left, hash, digits, right);
    }
    TrimmedEmpty(value);
    SameSpaces(value);
    hide TrimSpace, AllTrimmed, AllSpace;
  }

  ghost predicate IsColorOf(digits: string, c: Color) {
    |digits| == 6 && |c.hex| == 7 && c.hex[0] == '#' && forall i :: 0 <= i < 6 ==> IsUpperForm(digits[i], c.hex[i + 1])
  }

  lemma TrimmedEmpty(value: string)
    ensures TrimSpace(value) == "" <==> AllTrimmed(value)
  {
    if AllTrimmed(value) {
      TrimLeftAll(value);
    }
    var left := TrimLeftSplit(value);
    var right := TrimRightSplit(TrimLeft(value));
    if TrimSpace(value) == "" {
      assert value == left + right;
    }
  }

  lemma {:induction false} TrimLeftAll(value: string)
    requires AllTrimmed(value)
    ensures TrimLeft(value) == ""
  {
    if value != "" {
      assert IsSpace(value[0]);
      TrimLeftAll(value[1..]);
    }
  }

  lemma PaddingOfAccepted(value: string) returns (left: string, hash: string, digits: string, right: string)
    requires NewColor(value).Ok?
    ensures IsPadded(value, left, hash, digits, right)
  {
    left := TrimLeftSplit(value);
    right := TrimRightSplit(TrimLeft(value));
    hash, digits := HashSplit(value);
    SameSpaces(left);
    SameSpaces(right);
    HexForms(digits);
    hide TrimSpace, TrimLeft, TrimRight, NewColor, IsUpperForm, IsHexDigit, AllTrimmed, AllSpace;
    JoinFour(value, left, hash, digits, right, TrimLeft(value), TrimSpace(value));
  }

  lemma HashSplit(value: string) returns (hash: string, digits: string)
    requires NewColor(value).Ok?
    ensures hash == "" || hash == "#"
    ensures |digits| == 6 && forall c | c in digits :: IsHexDigit(c)
    ensures TrimSpace(value) == hash + digits
  {
    hide TrimSpace, IsHexDigit, Upper;
    var v := TrimSpace(value);
    if v[0] == '#' {
      hash, digits := "#", v[1..];
    } else {
      hash, digits := "", v;
    }
  }

  lemma JoinFour(value: string, left: string, hash: string, digits: string, right: string, tail: string, core: string)
    requires value == left + tail && tail == core + right && core == hash + digits
    ensures value == left + hash + digits + right
  {
  }

  lemma HexForms(digits: string)
    ensures (forall c | c in digits :: IsHexDigit(c)) <==> forall c | c in digits :: exists d :: IsUpperForm(c, d)
  {
    forall c {
      UpperForms(c);
    }
    hide IsHexDigit;
    forall c | c in digits && IsHexDigit(c)
      ensures exists d :: IsUpperForm(c, d)
    {
      assert IsUpperForm(c, UpperHex(c));
    }
    hide IsUpperForm;
  }

  lemma PaddedIsAccepted(value: string, left: string, hash: string, digits: string, right: string)
    requires IsPadded(value, left, hash, digits, right)
    ensures NewColor(value).Ok? && IsColorOf(digits, NewColor(value).value)
  {
    HexForms(digits);
    SameSpaces(left);
    SameSpaces(right);
    hide IsUpperForm, AllSpace, UpperHex, TrimSpace, AllTrimmed, NewColor, IsColorOf, Upper;
    TrimsToCore(left, hash, digits, right);
    AcceptsCore(value, hash, digits);
    ColorOfDigits(digits);
  }

  lemma TrimsToCore(left: string, hash: string, digits: string, right: string)
    requires AllTrimmed(left) && AllTrimmed(right) && (hash == "" || hash == "#")
    requires |digits| == 6 && forall c | c in digits :: IsHexDigit(c)
    ensures TrimSpace(left + hash + digits + right) == hash + digits
  {
    var core := hash + digits;
    assert digits[0] in digits && digits[5] in digits;
    assert core[|core| - 1] == digits[5];
    assert core[0] == if hash == "#" then '#' else digits[0];
    TrimPadded(left, core, right);
    hide TrimSpace, AllTrimmed;
    assert left + hash + digits + right == left + core + right;
  }

  lemma AcceptsCore(value: string, hash: string, digits: string)
    requires TrimSpace(value) == hash + digits && (hash == "" || hash == "#")
    requires |digits| == 6 && forall c | c in digits :: IsHexDigit(c)
    ensures NewColor(value) == Ok(Color("#" + Upper(digits)))
  {
    assert digits[0] in digits;
    hide TrimSpace, Upper;
    var core := hash + digits;
    assert core[0] == if hash == "#" then '#' else digits[0];
    assert core[|hash|..] == digits;
  }

  lemma ColorOfDigits(digits: string)
    requires |digits| == 6 && forall c | c in digits :: IsHexDigit(c)
    ensures IsColorOf(digits, Color("#" + Upper(digits)))
  {
    forall i | 0 <= i < 6
      ensures IsUpperForm(digits[i], ("#" + Upper(digits))[i + 1])
    {
      assert digits[i] in digits;
      UpperForms(digits[i]);
    }
    hide IsUpperForm, IsHexDigit;
  }

  ghost predicate IsPadded(value: string, left: string, hash: string, digits: string, right: string) {
    && value == left + hash + digits + right
    && AllSpace(left) && AllSpace(right)
    && (hash == "" || hash == "#")
    && |digits| == 6 && forall c | c in digits :: exists d :: IsUpperForm(c, d)
  }

  ghost predicate AllTrimmed(s: string) {
    forall i :: 0 <= i < |s| ==> IsSpace(s[i])
  }

  lemma {:induction false} TrimLeftSplit(s: string) returns (left: string)
    ensures AllTrimmed(left) && s == left + TrimLeft(s)
  {
    left := [];
    if s != [] && IsSpace(s[0]) {
      left := TrimLeftSplit(s[1..]);
      left := [s[0]] + left;
    }
  }

  lemma {:induction false} TrimRightSplit(s: string) returns (right: string)
    ensures AllTrimmed(right) && s == TrimRight(s) + right
  {
    right := [];
    if s != [] && IsSpace(s[|s| - 1]) {
      right := TrimRightSplit(s[..|s| - 1]);
      right := right + [s[|s| - 1]];
    }
  }

  lemma TrimPadded(left: string, core: string, right: string)
    requires AllTrimmed(left) && AllTrimmed(right)
    requires core != [] && !IsSpace(core[0]) && !IsSpace(core[|core| - 1])
    ensures TrimSpace(left + core + right) == core
  {
    TrimLeftPadded(left, core + right);
    assert left + core + right == left + (core + right);
    TrimRightPadded(core, right);
  }

  lemma {:induction false} TrimLeftPadded(left: string, rest: string)
    requires AllTrimmed(left) && rest != [] && !IsSpace(rest[0])
    ensures TrimLeft(left + rest) == rest
  {
    if left == [] {
      assert left + rest == rest;
    } else {
      assert (left + rest)[1..] == left[1..] + rest;
      TrimLeftPadded(left[1..], rest);
    }
  }

  lemma {:induction false} TrimRightPadded(core: string, right: string)
    requires AllTrimmed(right) && core != [] && !IsSpace(core[|core| - 1])
    ensures TrimRight(core + right) == core
    decreases |right|
  {
    if right == [] {
      assert core + right == core;
    } else {
      var n := |core + right| - 1;
      assert (core + right)[..n] == core + right[..|right| - 1];
      TrimRightPadded(core, right[..|right| - 1]);
    }
  }
}

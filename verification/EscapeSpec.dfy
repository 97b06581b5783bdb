/** What the escape functions of apr_escape.c compute, and which of them undo each other.

    The escape classes are those that tools/gen_test_char.c generates in the C locale. */
module EscapeSpec {
  import opened Common

  /** The bytes of a C string before its terminator. */
  type CString = s: string | forall i :: 0 <= i < |s| ==> 0 < s[i] as int < 256

  /** Arbitrary bytes. */
  type Bytes = s: string | forall i :: 0 <= i < |s| ==> s[i] as int < 256

  datatype Status = SUCCESS | NOTFOUND | EINVAL | BADCH

  // ----- character classes (tools/gen_test_char.c:63-107) ----------------------------------------

  predicate IsDigit(c: char) { '0' <= c <= '9' }

  predicate IsAlnum(c: char) { IsDigit(c) || 'A' <= c <= 'Z' || 'a' <= c <= 'z' }

  predicate IsXDigit(c: char) { IsDigit(c) || 'A' <= c <= 'F' || 'a' <= c <= 'f' }

  predicate IsShellSpecial(c: char) {
    match c
    case '&' | ';' | '`' | '\'' | '"' | '|' | '*' | '?' | '~' | '<' | '>' | '^' | '(' | ')' | '[' |
       ']' | '{' | '}' | '$' | '\\' | '\n' => true
    case _ => false
  }

  predicate IsSegmentSpecial(c: char) {
    match c
    case '$' | '-' | '_' | '.' | '+' | '!' | '*' | '\'' | '(' | ')' | ',' | ':' | '@' | '&' | '=' |
       '~' => false
    case _ => !IsAlnum(c)
  }

  predicate IsPathSpecial(c: char) {
    match c
    case '$' | '-' | '_' | '.' | '+' | '!' | '*' | '\'' | '(' | ')' | ',' | ':' | '@' | '&' | '=' |
       '/' | '~' => false
    case _ => !IsAlnum(c)
  }

  predicate IsFormSpecial(c: char) {
    match c
    case '.' | '-' | '*' | '_' | ' ' => false
    case _ => !IsAlnum(c)
  }

  predicate IsXmlSpecial(c: char) {
    match c
    case '<' | '>' | '&' | '"' => true
    case _ => false
  }

  predicate IsEchoSpecial(c: char) { c < ' ' || c > '~' || c == '"' || c == '\\' }

  // ----- escaping character by character --------------------------------------------------------

  function HexDigit(n: nat): char
    requires n < 16
  {
    if n < 10 then ('0' as int + n) as char else ('a' as int + n - 10) as char
  }

  function Hex(c: char): string
    requires c as int < 256
  {
    [HexDigit(c as int / 16), HexDigit(c as int % 16)]
  }

  type Encoder = char -> string

  function Percent(c: char): string { if c as int < 256 then ['%'] + Hex(c) else [c] }

  function ShellEnc(c: char): string { if IsShellSpecial(c) then ['\\', c] else [c] }

  function SegmentEnc(c: char): string { if IsSegmentSpecial(c) then Percent(c) else [c] }

  function PathEnc(c: char): string { if IsPathSpecial(c) then Percent(c) else [c] }

  function FormEnc(c: char): string { if IsFormSpecial(c) then Percent(c) else if c == ' ' then ['+'] else [c] }

  function EntityEnc(c: char): string {
    if c == '>' then "&gt;" else if c == '<' then "&lt;" else if c == '&' then "&amp;" else if c == '"' then "&quot;"
    else [c]
  }

  /** The letter after the backslash for the characters that have one. */
  function EchoLetter(c: char): Option<char> {
    if c as int == 7 then Some('a') else if c as int == 8 then Some('b') else if c as int == 12 then Some('f')
    else if c as int == 10 then Some('n') else if c as int == 13 then Some('r') else if c as int == 9 then Some('t')
    else if c as int == 11 then Some('v') else if c == '\\' then Some('\\') else None
  }

  function EchoEnc(quote: bool): Encoder {
    (c: char) =>
      if !IsEchoSpecial(c) then [c]
      else if EchoLetter(c).Some? then ['\\', EchoLetter(c).value]
      else if c == '"' then (if quote then ['\\', c] else [c])
      else if c as int < 256 then ['\\', 'x'] + Hex(c) else [c]
  }

  function Flat(s: string, enc: Encoder): string {
    if s == "" then "" else enc(s[0]) + Flat(s[1..], enc)
  }

  /** Is there something to escape? */
  predicate Found(s: string, enc: Encoder) { s != "" && (enc(s[0]) != [s[0]] || Found(s[1..], enc)) }

  /** The part of a string that an escape function works on; a negative slen stands for all of it. */
  function Input(s: CString, slen: int): CString { if 0 <= slen < |s| then s[..slen] else s }

  lemma {:induction false} FlatAppend(s: string, t: string, enc: Encoder)
    ensures Flat(s + t, enc) == Flat(s, enc) + Flat(t, enc)
    ensures Found(s + t, enc) <==> Found(s, enc) || Found(t, enc)
  {
    if s == "" {
      assert s + t == t;
    } else {
      assert (s + t)[0] == s[0] && (s + t)[1..] == s[1..] + t;
      FlatAppend(s[1..], t, enc);
    }
  }

  /** One more character. */
  lemma FlatNext(s: string, i: nat, enc: Encoder)
    requires i < |s|
    ensures Flat(s[..i + 1], enc) == Flat(s[..i], enc) + enc(s[i])
    ensures |Flat(s[..i + 1], enc)| <= |Flat(s, enc)|
    ensures Found(s[..i + 1], enc) <==> Found(s[..i], enc) || enc(s[i]) != [s[i]]
  {
    var p := s[..i + 1];
    assert p == s[..i] + [s[i]] && s == p + s[i + 1..];
    FlatAppend(s[..i], [s[i]], enc);
    FlatAppend(p, s[i + 1..], enc);
    assert Flat([s[i]], enc) == enc(s[i]) + Flat("", enc);
  }

  /** Nothing to escape means that the output is the input, and the other way round: this is what
      lets the pool functions return their argument. */
  lemma {:induction false} FlatSame(s: string, enc: Encoder)
    requires forall c :: |enc(c)| >= 1
    ensures |Flat(s, enc)| >= |s|
    ensures !Found(s, enc) <==> Flat(s, enc) == s
  {
    if s != "" {
      FlatSame(s[1..], enc);
      var e, f := enc(s[0]), Flat(s[1..], enc);
      assert s == [s[0]] + s[1..];
      if Flat(s, enc) == s {
        assert |e| == 1 && (e + f)[0] == e[0] && (e + f)[1..] == f;
      }
    }
  }

  /** No character is lost. */
  lemma EncodersKeep(quote: bool)
    ensures forall c :: |ShellEnc(c)| >= 1
    ensures forall c :: |SegmentEnc(c)| >= 1
    ensures forall c :: |PathEnc(c)| >= 1
    ensures forall c :: |FormEnc(c)| >= 1
    ensures forall c :: |EntityEnc(c)| >= 1
    ensures forall c :: |EchoEnc(quote)(c)| >= 1
  {
  }

  // ----- percent-decoding -----------------------------------------------------------------------

  /** c & 0xdf, which makes a letter upper case. */
  function ClearBit5(c: nat): nat { c - 32 * (c / 32 % 2) }

  function HexValue(c: char): (n: nat)
    requires IsXDigit(c)
    ensures n < 16 && (HexDigit(n) == c || ('A' <= c <= 'F' && c as int == 'A' as int + n - 10))
  {
    if c >= 'A' then ClearBit5(c as int) - 'A' as int + 10 else c as int - '0' as int
  }

  function X2c(hi: char, lo: char): char
    requires IsXDigit(hi) && IsXDigit(lo)
  {
    (16 * HexValue(hi) + HexValue(lo)) as char
  }

  datatype Url = Url(out: string, badesc: bool, badpath: bool, found: bool)

  /** How apr_unescape_url is called. */
  datatype Rules = Rules(forbid: Option<CString>, reserved: Option<CString>, plus: bool)

  predicate Among(c: char, chars: Option<CString>) { chars.Some? && c in chars.value }

  predicate Escaped(s: string) { |s| >= 3 && s[0] == '%' && IsXDigit(s[1]) && IsXDigit(s[2]) }

  function UrlDecode(s: string, r: Rules): Url {
    if s == "" then Url("", false, false, false)
    else if r.plus && s[0] == '+' then
      var u := UrlDecode(s[1..], r); u.(out := " " + u.out, found := true)
    else if s[0] != '%' then
      var u := UrlDecode(s[1..], r); u.(out := [s[0]] + u.out)
    else if !Escaped(s) then
      var u := UrlDecode(s[1..], r); u.(out := "%" + u.out, badesc := true)
    else
      var c, u := X2c(s[1], s[2]), UrlDecode(s[3..], r);
      if c as int == 0 || Among(c, r.forbid) then u.(out := [c] + u.out, badpath := true)
      else if Among(c, r.reserved) then u.(out := s[..3] + u.out)
      else u.(out := [c] + u.out, found := true)
  }

  function UrlStatus(u: Url): Status {
    if u.badesc then EINVAL else if u.badpath then BADCH else if !u.found then NOTFOUND else SUCCESS
  }

  /** Where nothing is decoded, the output is the input, malformed or not. */
  lemma {:induction false} UndecodedSame(s: string, r: Rules)
    requires !UrlDecode(s, r).found && !UrlDecode(s, r).badpath
    ensures UrlDecode(s, r).out == s
  {
    if s != "" {
      if Escaped(s) {
        UndecodedSame(s[3..], r);
        assert s == s[..3] + s[3..];
      } else {
        UndecodedSame(s[1..], r);
        assert s == [s[0]] + s[1..];
      }
    }
  }

  /** NOTFOUND means that the output is the input. */
  lemma UrlNotFoundSame(s: string, r: Rules)
    requires UrlStatus(UrlDecode(s, r)) == NOTFOUND
    ensures UrlDecode(s, r).out == s
  {
    UndecodedSame(s, r);
  }

  /** What unescaping finds in an escaped character. */
  lemma UnescapesPercent(c: char, rest: string, r: Rules)
    requires 0 < c as int < 256
    ensures var u := UrlDecode(rest, r);
            UrlDecode(Percent(c) + rest, r) ==
              if Among(c, r.forbid) then u.(out := [c] + u.out, badpath := true)
              else if Among(c, r.reserved) then u.(out := Percent(c) + u.out)
              else u.(out := [c] + u.out, found := true)
    ensures |Percent(c)| == 3
  {
    var s := Percent(c) + rest;
    assert s[1] == HexDigit(c as int / 16) && s[2] == HexDigit(c as int % 16) && s[3..] == rest;
    assert X2c(s[1], s[2]) == c && s[..3] == Percent(c);
  }

  /** A plain character. */
  lemma UnescapesPlain(c: char, rest: string, r: Rules)
    requires c != '%' && !(r.plus && c == '+')
    ensures var u := UrlDecode(rest, r); UrlDecode([c] + rest, r) == u.(out := [c] + u.out)
  {
    assert ([c] + rest)[1..] == rest;
  }

  /** A '+' that is taken for a space. */
  lemma UnescapesPlus(rest: string, r: Rules)
    requires r.plus
    ensures var u := UrlDecode(rest, r); UrlDecode("+" + rest, r) == u.(out := " " + u.out, found := true)
  {
    assert ("+" + rest)[1..] == rest;
  }

  /** Of the characters that get escaped, none is forbidden or to be kept escaped. */
  predicate Harmless(s: CString, special: char -> bool, r: Rules) {
    forall i :: 0 <= i < |s| && special(s[i]) ==> !Among(s[i], r.forbid) && !Among(s[i], r.reserved)
  }

  /** What taking '+' for a space does to a string: nothing, if and only if there is none. */
  function Spaced(s: CString, plus: bool): (t: CString)
    ensures |t| == |s|
  {
    if s == "" then "" else [if plus && s[0] == '+' then ' ' else s[0]] + Spaced(s[1..], plus)
  }

  lemma {:induction false} SpacedSame(s: CString, plus: bool)
    ensures Spaced(s, plus) == s <==> !(plus && '+' in s)
  {
    if s != "" {
      SpacedSame(s[1..], plus);
      assert s == [s[0]] + s[1..];
      assert Spaced(s, plus)[1..] == Spaced(s[1..], plus);
    }
  }

  lemma HarmlessStep(s: CString, special: char -> bool, r: Rules)
    requires s != ""
    ensures Harmless(s, special, r) <==>
              (special(s[0]) ==> !Among(s[0], r.forbid) && !Among(s[0], r.reserved)) && Harmless(s[1..], special, r)
  {
    assert forall i :: 1 <= i < |s| ==> s[1..][i - 1] == s[i];
  }

  /** An encoder that escapes the special characters, '%' but not '+' among them, and no others. */
  ghost predicate Escapes(enc: Encoder, special: char -> bool) {
    special('%') && !special('+') && forall c :: enc(c) == if special(c) then Percent(c) else [c]
  }

  /** If the special characters are harmless, unescaping gives the string back, but for a '+' that it
      takes for a space. If not, it complains or gives something longer. */
  lemma {:induction false} PercentRoundTrip(s: CString, enc: Encoder, special: char -> bool, r: Rules)
    requires Escapes(enc, special)
    ensures var u := UrlDecode(Flat(s, enc), r);
            && !u.badesc && |u.out| >= |s|
            && (Harmless(s, special, r) <==> !u.badpath && |u.out| == |s|)
            && (Harmless(s, special, r) ==>
                  u.out == Spaced(s, r.plus) && u.found == (Found(s, enc) || (r.plus && '+' in s)))
  {
    if s != "" {
      var c, rest := s[0], Flat(s[1..], enc);
      PercentRoundTrip(s[1..], enc, special, r);
      HarmlessStep(s, special, r);
      assert s == [c] + s[1..];
      assert Flat(s, enc) == enc(c) + rest && (special(c) ==> enc(c) == Percent(c)) && (!special(c) ==> enc(c) == [c]);
      hide UrlDecode, Percent, Harmless;
      if special(c) { UnescapesPercent(c, rest, r); }
      else if r.plus && c == '+' { UnescapesPlus(rest, r); }
      else { UnescapesPlain(c, rest, r); }
    }
  }

  /** The result of unescaping is t, without complaint. */
  predicate Yields(u: Url, t: string) { u.out == t && UrlStatus(u) in {SUCCESS, NOTFOUND} }

  /** unescape_url undoes escape_path_segment if and only if no character that gets escaped is
      forbidden or reserved, and there is no '+' that it takes for a space. */
  lemma {:induction false} SegmentRoundTrip(s: CString, r: Rules)
    ensures var u, fits := UrlDecode(Flat(s, SegmentEnc), r), Harmless(s, IsSegmentSpecial, r);
            && (Yields(u, s) <==> fits && !(r.plus && '+' in s))
            && (Yields(u, Spaced(s, r.plus)) <==> fits)
            && (fits ==> UrlStatus(u) == if Found(s, SegmentEnc) || (r.plus && '+' in s) then SUCCESS else NOTFOUND)
  {
    PercentRoundTrip(s, SegmentEnc, IsSegmentSpecial, r);
    SpacedSame(s, r.plus);
  }

  lemma {:induction false} PathRoundTrip(s: CString, r: Rules)
    ensures var u, fits := UrlDecode(Flat(s, PathEnc), r), Harmless(s, IsPathSpecial, r);
            && (Yields(u, s) <==> fits && !(r.plus && '+' in s))
            && (Yields(u, Spaced(s, r.plus)) <==> fits)
            && (fits ==> UrlStatus(u) == if Found(s, PathEnc) || (r.plus && '+' in s) then SUCCESS else NOTFOUND)
  {
    PercentRoundTrip(s, PathEnc, IsPathSpecial, r);
    SpacedSame(s, r.plus);
  }

  /** unescape_url with plus set undoes escape_urlencoded if and only if no character that gets
      escaped is forbidden or reserved. */
  lemma {:induction false} FormRoundTrip(s: CString, r: Rules)
    requires r.plus
    ensures var u, fits := UrlDecode(Flat(s, FormEnc), r), Harmless(s, IsFormSpecial, r);
            && (Yields(u, s) <==> fits)
            && (fits ==> UrlStatus(u) == if Found(s, FormEnc) then SUCCESS else NOTFOUND)
  {
    FormDecodes(s, r);
  }

  lemma {:induction false} FormDecodes(s: CString, r: Rules)
    requires r.plus
    ensures var u := UrlDecode(Flat(s, FormEnc), r);
            && !u.badesc && |u.out| >= |s|
            && (Harmless(s, IsFormSpecial, r) <==> !u.badpath && |u.out| == |s|)
            && (Harmless(s, IsFormSpecial, r) ==> u.out == s && u.found == Found(s, FormEnc))
  {
    if s != "" {
      var c, rest := s[0], Flat(s[1..], FormEnc);
      FormDecodes(s[1..], r);
      HarmlessStep(s, IsFormSpecial, r);
      assert s == [c] + s[1..];
      if IsFormSpecial(c) { UnescapesPercent(c, rest, r); }
      else if c == ' ' { UnescapesPlus(rest, r); }
      else { UnescapesPlain(c, rest, r); }
    }
  }

  // ----- escape_path ----------------------------------------------------------------------------

  /** Where strchr finds a character, or the length. */
  function Strchr(s: string, c: char): nat
    ensures Strchr(s, c) <= |s|
  {
    if s == "" || s[0] == c then 0 else 1 + Strchr(s[1..], c)
  }

  /** Would the path be taken for a URL with a scheme? */
  predicate NeedsDot(path: CString, partial: bool) {
    !partial && Strchr(path, ':') < |path| && Strchr(path, ':') < Strchr(path, '/')
  }

  function Dot(path: CString, partial: bool): string { if NeedsDot(path, partial) then "./" else "" }

  function PathOut(path: CString, slen: int, partial: bool): string {
    Dot(path, partial) + Flat(Input(path, slen), PathEnc)
  }

  /** unescape_url undoes escape_path, up to the prefix that it may have put in front, if and only if
      no character that gets escaped is forbidden or reserved, and there is no '+' that it takes for
      a space. */
  lemma {:induction false} PathOutRoundTrip(path: CString, partial: bool, r: Rules)
    ensures var u, fits := UrlDecode(PathOut(path, -1, partial), r), Harmless(path, IsPathSpecial, r);
            && (Yields(u, Dot(path, partial) + path) <==> fits && !(r.plus && '+' in path))
            && (fits ==> UrlStatus(u) == if Found(path, PathEnc) || (r.plus && '+' in path) then SUCCESS else NOTFOUND)
  {
    PathRoundTrip(path, r);
    DotPrefix(Flat(path, PathEnc), path, NeedsDot(path, partial), r);
  }

  /** The prefix stays as it is, and does not touch the rest. */
  lemma DotPrefix(rest: string, t: string, dot: bool, r: Rules)
    ensures var u, prefix := UrlDecode(rest, r), if dot then "./" else "";
            var v := UrlDecode(prefix + rest, r);
            UrlStatus(v) == UrlStatus(u) && (Yields(v, prefix + t) <==> Yields(u, t))
  {
    if dot {
      UnescapesPlain('/', rest, r);
      UnescapesPlain('.', "/" + rest, r);
      assert "./" + rest == "." + ("/" + rest);
      var out := UrlDecode(rest, r).out;
      assert "./" + out == "." + ("/" + out);
      assert ("./" + out)[2..] == out && ("./" + t)[2..] == t;
    } else {
      assert "" + rest == rest && "" + t == t;
    }
  }

  // ----- entities -------------------------------------------------------------------------------

  /** Named entities by length: apr_escape.c:710-727. */
  function Entities(len: nat): seq<(string, char)> {
    if len == 2 then Two() else if len == 3 then Three() else if len == 4 then Four() else if len == 5 then Five()
    else if len == 6 then Six() else []
  }

  function Two(): seq<(string, char)> {
    [("lt", '<'), ("gt", '>')]
  }

  function Three(): seq<(string, char)> {
    [("amp", '&'), ("ETH", '\U{d0}'), ("eth", '\U{f0}')]
  }

  function Four(): seq<(string, char)> {
    [("quot", '"'), ("Auml", '\U{c4}'), ("Euml", '\U{cb}'), ("Iuml", '\U{cf}'), ("Ouml", '\U{d6}'),
       ("Uuml", '\U{dc}'), ("auml", '\U{e4}'), ("euml", '\U{eb}'), ("iuml", '\U{ef}'), ("ouml", '\U{f6}'),
       ("uuml", '\U{fc}'), ("yuml", '\U{ff}')]
  }

  function Five(): seq<(string, char)> {
    [("Acirc", '\U{c2}'), ("Aring", '\U{c5}'), ("AElig", '\U{c6}'), ("Ecirc", '\U{ca}'), ("Icirc", '\U{ce}'),
       ("Ocirc", '\U{d4}'), ("Ucirc", '\U{db}'), ("THORN", '\U{de}'), ("szlig", '\U{df}'), ("acirc", '\U{e2}'),
       ("aring", '\U{e5}'), ("aelig", '\U{e6}'), ("ecirc", '\U{ea}'), ("icirc", '\U{ee}'), ("ocirc", '\U{f4}'),
       ("ucirc", '\U{fb}'), ("thorn", '\U{fe}')]
  }

  function Six(): seq<(string, char)> {
    [("Agrave", '\U{c0}'), ("Aacute", '\U{c1}'), ("Atilde", '\U{c3}'), ("Ccedil", '\U{c7}'),
       ("Egrave", '\U{c8}'), ("Eacute", '\U{c9}'), ("Igrave", '\U{cc}'), ("Iacute", '\U{cd}'),
       ("Ntilde", '\U{d1}'), ("Ograve", '\U{d2}'), ("Oacute", '\U{d3}'), ("Otilde", '\U{d5}'),
       ("Oslash", '\U{d8}'), ("Ugrave", '\U{d9}'), ("Uacute", '\U{da}'), ("Yacute", '\U{dd}'),
       ("agrave", '\U{e0}'), ("aacute", '\U{e1}'), ("atilde", '\U{e3}'), ("ccedil", '\U{e7}'),
       ("egrave", '\U{e8}'), ("eacute", '\U{e9}'), ("igrave", '\U{ec}'), ("iacute", '\U{ed}'),
       ("ntilde", '\U{f1}'), ("ograve", '\U{f2}'), ("oacute", '\U{f3}'), ("otilde", '\U{f5}'),
       ("oslash", '\U{f8}'), ("ugrave", '\U{f9}'), ("uacute", '\U{fa}'), ("yacute", '\U{fd}')]
  }

  function Lookup(table: seq<(string, char)>, name: string): Option<char> {
    if table == [] then None else if table[0].0 == name then Some(table[0].1) else Lookup(table[1..], name)
  }

  /** The number that the digits from j on spell, and where they end. */
  function Digits(s: string, j: nat, val: nat): (nat, nat)
    requires j <= |s|
    decreases |s| - j
  {
    if j < |s| && IsDigit(s[j]) then Digits(s, j + 1, 10 * val + (s[j] as int - '0' as int)) else (val, j)
  }

  /** What a reference between '&' and ';' stands for: a character, nothing at all, or no reference. */
  datatype Reference = Char(c: char) | Dropped | Unknown

  predicate IsLatin1(val: int) {
    !(val <= 8 || 11 <= val <= 31 || 127 <= val <= 160 || val >= 256)
  }

  function Resolve(name: string): Reference {
    if name != "" && name[0] == '#' then
      var (val, end) := Digits(name, 1, 0);
      if end < |name| || !IsLatin1(val) then Dropped else Char(val as char)
    else
      var c := Lookup(Entities(|name|), name);
      if c.Some? then Char(c.value) else Unknown
  }

  /** dropped: a numeric reference has been left out. */
  datatype Text = Text(out: string, found: bool, dropped: bool)

  function EntityDecode(s: string): Text {
    if s == "" then Text("", false, false)
    else
      var end := Strchr(s, ';');
      if s[0] != '&' || end == |s| then
        var x := EntityDecode(s[1..]); x.(out := [s[0]] + x.out)
      else
        match Resolve(s[1..end])
        case Char(c) => var x := EntityDecode(s[end + 1..]); x.(out := [c] + x.out, found := true)
        case Dropped => EntityDecode(s[end + 1..]).(dropped := true)
        case Unknown => var x := EntityDecode(s[1..]); x.(out := "&" + x.out)
  }

  function TextStatus(x: Text): Status { if x.found then SUCCESS else NOTFOUND }

  lemma {:induction false} EntityShrinks(s: string)
    ensures |EntityDecode(s).out| <= |s|
    ensures EntityDecode(s).dropped ==> |EntityDecode(s).out| < |s|
    decreases |s|
  {
    if s != "" {
      EntityShrinks(s[1..]);
      var end := Strchr(s, ';');
      if s[0] == '&' && end < |s| { EntityShrinks(s[end + 1..]); }
    }
  }

  /** Does the string contain "&#" and, somewhere behind it, a ';'? */
  predicate Numeric(s: string) {
    |s| >= 2 && ((s[0] == '&' && s[1] == '#' && ';' in s) || Numeric(s[1..]))
  }

  lemma {:induction false} StrchrFinds(s: string, c: char)
    ensures Strchr(s, c) < |s| <==> c in s
  {
    if s != "" && s[0] != c {
      StrchrFinds(s[1..], c);
      assert s == [s[0]] + s[1..];
    }
  }

  /** Where nothing is found, a reference has been left out if and only if there is a numeric one. */
  lemma {:induction false} DroppedIfNumeric(s: string)
    requires !EntityDecode(s).found
    ensures EntityDecode(s).dropped <==> Numeric(s)
    decreases |s|
  {
    if s != "" {
      StrchrFinds(s, ';');
      var end := Strchr(s, ';');
      if s[0] != '&' || end == |s| || Resolve(s[1..end]).Unknown? {
        DroppedIfNumeric(s[1..]);
      } else {
        assert s[1..end] != "" && s[1..end][0] == s[1] == '#';
      }
    }
  }

  /** With NOTFOUND, the output is the input if and only if there is no numeric reference. */
  lemma {:induction false} EntityNotFoundSame(s: string)
    requires TextStatus(EntityDecode(s)) == NOTFOUND
    ensures EntityDecode(s).out == s <==> !Numeric(s)
    decreases |s|
  {
    DroppedIfNumeric(s);
    if s != "" {
      assert s == [s[0]] + s[1..];
      EntityShrinks(s);
      var end := Strchr(s, ';');
      if s[0] != '&' || end == |s| || Resolve(s[1..end]).Unknown? {
        DroppedIfNumeric(s[1..]);
        EntityNotFoundSame(s[1..]);
      }
    }
  }

  /** So apr_punescape_entity returns "&#5;" as it is, although apr_unescape_entity makes it empty. */
  lemma DroppedIsNotFound()
    ensures EntityDecode("&#5;") == Text("", false, true)
  {
    assert Strchr("&#5;", ';') == 3 by {
      assert "&#5;"[1..] == "#5;" && "#5;"[1..] == "5;" && "5;"[1..] == ";";
    }
    assert "&#5;"[1..3] == "#5" && "&#5;"[4..] == "";
    assert Digits("#5", 1, 0) == (5, 2);
  }

  lemma {:induction false} StrchrAfter(s: string, c: char, rest: string)
    requires c !in s
    ensures Strchr(s + [c] + rest, c) == |s|
  {
    if s != "" {
      assert (s + [c] + rest)[1..] == s[1..] + [c] + rest;
      StrchrAfter(s[1..], c, rest);
    }
  }

  /** A reference that stands for a character. */
  lemma UnescapesReference(ref: string, name: string, c: char, rest: string)
    requires ref == "&" + name + ";" && ';' !in name && Resolve(name) == Char(c)
    ensures var x := EntityDecode(rest); EntityDecode(ref + rest) == x.(out := [c] + x.out, found := true)
  {
    var s, n := ref + rest, |name|;
    assert s == ("&" + name) + [';'] + rest;
    StrchrAfter("&" + name, ';', rest);
    assert s[0] == '&' && Strchr(s, ';') == n + 1;
    assert s[1..n + 1] == name;
    assert s[n + 2..] == rest;
  }

  /** A numeric reference that stands for nothing. */
  lemma LeavesOutReference(ref: string, name: string, rest: string)
    requires ref == "&" + name + ";" && ';' !in name && Resolve(name) == Dropped
    ensures EntityDecode(ref + rest) == EntityDecode(rest).(dropped := true)
  {
    var s, n := ref + rest, |name|;
    assert s == ("&" + name) + [';'] + rest;
    StrchrAfter("&" + name, ';', rest);
    assert s[0] == '&' && Strchr(s, ';') == n + 1;
    assert s[1..n + 1] == name;
    assert s[n + 2..] == rest;
  }

  /** The references that escaping makes. */
  lemma OwnReferences()
    ensures Resolve("lt") == Char('<') && Resolve("gt") == Char('>') && Resolve("amp") == Char('&')
    ensures Resolve("quot") == Char('"')
  {
    assert Entities(2)[1..] == [("gt", '>')];
    assert Lookup(Entities(2), "gt") == Lookup([("gt", '>')], "gt");
  }

  lemma UnescapesEntity(c: char, rest: string)
    ensures var x := EntityDecode(rest);
            EntityDecode(EntityEnc(c) + rest) == x.(out := [c] + x.out, found := x.found || IsXmlSpecial(c))
  {
    OwnReferences();
    if c == '<' { UnescapesReference("&lt;", "lt", c, rest); }
    else if c == '>' { UnescapesReference("&gt;", "gt", c, rest); }
    else if c == '&' { UnescapesReference("&amp;", "amp", c, rest); }
    else if c == '"' { UnescapesReference("&quot;", "quot", c, rest); }
    else { assert ([c] + rest)[1..] == rest; }
  }

  /** unescape_entity undoes escape_entity. */
  lemma {:induction false} EntityRoundTrip(s: CString)
    ensures EntityDecode(Flat(s, EntityEnc)) == Text(s, Found(s, EntityEnc), false)
  {
    if s != "" {
      EntityRoundTrip(s[1..]);
      UnescapesEntity(s[0], Flat(s[1..], EntityEnc));
      assert s == [s[0]] + s[1..];
    }
  }

  // ----- hexadecimal ----------------------------------------------------------------------------

  /** first: no colon in front of the first byte. */
  function HexEncode(b: Bytes, colon: bool, first: bool): string {
    if b == "" then "" else (if colon && !first then ":" else "") + Hex(b[0]) + HexEncode(b[1..], colon, false)
  }

  /** The length that apr_escape_hex reports. */
  function HexLength(n: nat, colon: bool): nat { if colon && n > 0 then 3 * n else 2 * n + 1 }

  lemma {:induction false} HexEncodeLength(b: Bytes, colon: bool, first: bool)
    ensures |HexEncode(b, colon, first)| == 2 * |b| + (if colon then (if first && |b| > 0 then |b| - 1 else |b|) else 0)
  {
    if b != "" { HexEncodeLength(b[1..], colon, false); }
  }

  /** The length is that of the output with its terminator. */
  lemma HexLengthRight(b: Bytes, colon: bool)
    ensures HexLength(|b|, colon) == |HexEncode(b, colon, true)| + 1
  {
    HexEncodeLength(b, colon, true);
  }

  /** None: a character that does not belong. high: the first digit of a byte, if it has been read. */
  function HexDecode(s: string, colon: bool, high: Option<nat>): Option<string> {
    if s == "" then Some("")
    else if colon && s[0] == ':' && high.None? then HexDecode(s[1..], colon, None)
    else if !IsXDigit(s[0]) then None
    else if high.None? then HexDecode(s[1..], colon, Some(HexValue(s[0])))
    else
      var rest := HexDecode(s[1..], colon, None);
      if rest.None? then None else Some([(16 * (high.value % 16) + HexValue(s[0])) as char] + rest.value)
  }

  lemma UnescapesHex(c: char, rest: string, colon: bool)
    requires c as int < 256
    ensures HexDecode(Hex(c) + rest, colon, None) ==
              var d := HexDecode(rest, colon, None); if d.None? then None else Some([c] + d.value)
  {
    var s := Hex(c) + rest;
    assert s[1..] == [HexDigit(c as int % 16)] + rest;
    assert s[1..][1..] == rest;
    assert HexValue(s[0]) == c as int / 16 && HexValue(s[1]) == c as int % 16;
  }

  /** unescape_hex undoes escape_hex on arbitrary bytes, with colons or without. */
  lemma {:induction false} HexRoundTrip(b: Bytes, colon: bool, first: bool)
    ensures var d := HexDecode(HexEncode(b, colon, first), colon, None); d.Some? && d.value == b
  {
    if b != "" {
      HexRoundTrip(b[1..], colon, false);
      var rest := HexEncode(b[1..], colon, false);
      UnescapesHex(b[0], rest, colon);
      assert b == [b[0]] + b[1..];
      var s := Hex(b[0]) + rest;
      if colon && !first {
        assert HexEncode(b, colon, first) == ":" + s;
        assert (":" + s)[1..] == s;
      } else {
        assert HexEncode(b, colon, first) == s;
      }
    }
  }

  /** The byte that the first of two digits leaves behind. */
  function Half(high: Option<nat>): string { if high.None? then "" else [(16 * (high.value % 16)) as char] }

  /** All that unescape_hex stores: the first digit of a byte is stored too, and the second one
      overwrites it. */
  function HexStored(s: string, colon: bool, high: Option<nat>): string {
    if s == "" then Half(high)
    else if colon && s[0] == ':' && high.None? then HexStored(s[1..], colon, None)
    else if !IsXDigit(s[0]) then Half(high)
    else if high.None? then HexStored(s[1..], colon, Some(HexValue(s[0])))
    else [(16 * (high.value % 16) + HexValue(s[0])) as char] + HexStored(s[1..], colon, None)
  }

  /** How many hexadecimal digits a string has. */
  function HexDigits(s: string): nat {
    if s == "" then 0 else (if IsXDigit(s[0]) then 1 else 0) + HexDigits(s[1..])
  }

  /** A string that can be decoded gets the bytes stored that are reported, and if and only if its
      number of digits is odd, one more byte: the last digit times 16. */
  lemma {:induction false} HexStoredExact(s: string, colon: bool, high: Option<nat>)
    requires HexDecode(s, colon, high).Some?
    ensures var d, t := HexDecode(s, colon, high).value, HexStored(s, colon, high);
            var odd := (HexDigits(s) + if high.Some? then 1 else 0) % 2 == 1;
            && d <= t && |t| == |d| + (if odd then 1 else 0)
            && (odd ==> t[|d|] as int % 16 == 0)
  {
    if s != "" {
      HexStoredExact(s[1..], colon,
                     if (colon && s[0] == ':' && high.None?) || high.Some? then None else Some(HexValue(s[0])));
    }
  }

  lemma HexStoresOneMore()
    ensures HexStored("1", false, None) == "\U{10}" && HexDecode("1", false, None) == Some("")
  {
    assert "1"[1..] == "";
    assert HexDecode("", false, Some(HexValue('1'))) == Some("");
    assert HexStored("", false, Some(HexValue('1'))) == "\U{10}";
  }
}

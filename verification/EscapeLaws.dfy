/** More about the escapes of module EscapeSpec: which complaint unescape_url makes about which input,
    readers that undo the backslashes of escape_shell and escape_echo, and what the character classes
    are in terms of the standards. */
module EscapeLaws {
  import opened Common
  import opened EscapeSpec

  // ----- what unescape_url complains about ------------------------------------------------------

  /** Something is the case at some place in the string. */
  predicate Somewhere(s: string, at: string -> bool) { exists i :: 0 <= i < |s| && at(s[i..]) }

  lemma SomewhereNext(s: string, at: string -> bool)
    requires s != ""
    ensures Somewhere(s, at) <==> at(s) || Somewhere(s[1..], at)
  {
    assert s[0..] == s;
    assert forall i :: 1 <= i < |s| ==> s[i..] == s[1..][i - 1..];
    if Somewhere(s[1..], at) {
      var i :| 0 <= i < |s[1..]| && at(s[1..][i..]);
      assert s[i + 1..] == s[1..][i..];
    }
  }

  /** A '%' without two hexadecimal digits. */
  predicate Malformed(s: string) { s != "" && s[0] == '%' && !Escaped(s) }

  /** An escaped zero byte or an escaped forbidden character. */
  function Forbidden(r: Rules): string -> bool {
    (s: string) => Escaped(s) && (X2c(s[1], s[2]) as int == 0 || Among(X2c(s[1], s[2]), r.forbid))
  }

  /** An escape to be decoded, or a '+' to be taken for a space. */
  function Replaced(r: Rules): string -> bool {
    (s: string) =>
      || (Escaped(s) && !Forbidden(r)(s) && !Among(X2c(s[1], s[2]), r.reserved))
      || (r.plus && s != "" && s[0] == '+')
  }

  /** Nothing is to be seen at a digit. */
  lemma SkipsDigits(s: string, at: string -> bool)
    requires Escaped(s) && forall t :: at(t) ==> t != "" && !IsXDigit(t[0])
    ensures Somewhere(s, at) <==> at(s) || Somewhere(s[3..], at)
  {
    SomewhereNext(s, at);
    SomewhereNext(s[1..], at);
    SomewhereNext(s[2..], at);
    assert s[1..][1..] == s[2..] && s[2..][1..] == s[3..];
  }

  /** The flags tell what is in the string. */
  lemma {:induction false} FlagsTell(s: string, r: Rules)
    ensures var u := UrlDecode(s, r);
            && (u.badesc <==> Somewhere(s, Malformed))
            && (u.badpath <==> Somewhere(s, Forbidden(r)))
            && (u.found <==> Somewhere(s, Replaced(r)))
  {
    if s != "" {
      if Escaped(s) {
        FlagsTell(s[3..], r);
        SkipsDigits(s, Malformed);
        SkipsDigits(s, Forbidden(r));
        SkipsDigits(s, Replaced(r));
      } else {
        FlagsTell(s[1..], r);
        SomewhereNext(s, Malformed);
        SomewhereNext(s, Forbidden(r));
        SomewhereNext(s, Replaced(r));
      }
    }
  }

  /** The status is EINVAL if and only if there is a malformed escape; otherwise BADCH if and only if
      something forbidden is escaped; otherwise SUCCESS if and only if something is replaced. */
  lemma StatusTells(s: string, r: Rules)
    ensures var status := UrlStatus(UrlDecode(s, r));
            && (status == EINVAL <==> Somewhere(s, Malformed))
            && (status == BADCH <==> !Somewhere(s, Malformed) && Somewhere(s, Forbidden(r)))
            && (status == SUCCESS <==>
                  !Somewhere(s, Malformed) && !Somewhere(s, Forbidden(r)) && Somewhere(s, Replaced(r)))
  {
    FlagsTell(s, r);
  }

  // ----- what the backslashes hide --------------------------------------------------------------

  /** What a shell makes of a word: a backslash goes and takes the next character as it is. */
  function Unshell(s: string): string {
    if s == "" then ""
    else if s[0] == '\\' && |s| > 1 then [s[1]] + Unshell(s[2..])
    else [s[0]] + Unshell(s[1..])
  }

  /** Is there such a character that no backslash hides? */
  predicate Bare(s: string, special: char -> bool) {
    s != "" &&
    if s[0] == '\\' && |s| > 1 then Bare(s[2..], special) else special(s[0]) || Bare(s[1..], special)
  }

  /** A shell reads the escaped string as the original one, and sees no special character in it. */
  lemma {:induction false} ShellRoundTrip(s: string)
    ensures Unshell(Flat(s, ShellEnc)) == s && !Bare(Flat(s, ShellEnc), IsShellSpecial)
  {
    if s != "" {
      var c, rest := s[0], Flat(s[1..], ShellEnc);
      ShellRoundTrip(s[1..]);
      assert s == [c] + s[1..];
      if IsShellSpecial(c) {
        assert (['\\', c] + rest)[2..] == rest;
      } else {
        assert ([c] + rest)[1..] == rest;
      }
    }
  }

  /** What the letter behind a backslash means in a C string; any other character means itself. */
  function Letter(c: char): char {
    match c
    case 'a' => '\U{07}'
    case 'b' => '\U{08}'
    case 't' => '\U{09}'
    case 'n' => '\U{0a}'
    case 'v' => '\U{0b}'
    case 'f' => '\U{0c}'
    case 'r' => '\U{0d}'
    case _ => c
  }

  /** What the escapes of a C string mean, with two digits for a hexadecimal one. */
  function Unecho(s: string): string {
    if s == "" then ""
    else if s[0] != '\\' || |s| == 1 then [s[0]] + Unecho(s[1..])
    else if |s| >= 4 && s[1] == 'x' && IsXDigit(s[2]) && IsXDigit(s[3]) then [X2c(s[2], s[3])] + Unecho(s[4..])
    else [Letter(s[1])] + Unecho(s[2..])
  }

  predicate IsPrintable(c: char) { ' ' <= c <= '~' }

  predicate IsQuote(c: char) { c == '"' }

  /** What stands for one character, and then the rest. */
  predicate ReadsAs(e: string, c: char, bare: bool, rest: string) {
    && Unecho(e + rest) == [c] + Unecho(rest) && (forall x :: x in e ==> IsPrintable(x))
    && (Bare(e + rest, IsQuote) <==> bare || Bare(rest, IsQuote))
  }

  lemma ReadsPlain(c: char, rest: string)
    requires IsPrintable(c) && c != '\\'
    ensures ReadsAs([c], c, IsQuote(c), rest)
  {
    assert ([c] + rest)[1..] == rest;
  }

  lemma ReadsLetter(l: char, rest: string)
    requires IsPrintable(l) && l != 'x'
    ensures ReadsAs(['\\', l], Letter(l), false, rest)
  {
    assert (['\\', l] + rest)[2..] == rest;
  }

  lemma ReadsHex(c: char, rest: string)
    requires c as int < 256
    ensures ReadsAs(['\\', 'x'] + Hex(c), c, false, rest)
  {
    var e, h, l := ['\\', 'x'] + Hex(c), HexDigit(c as int / 16), HexDigit(c as int % 16);
    var s := e + rest;
    assert e == ['\\', 'x', h, l] && X2c(h, l) == c;
    assert s[4..] == rest && s[2..] == [h, l] + rest && s[2..][1..] == [l] + rest && s[2..][1..][1..] == rest;
    assert Bare(s, IsQuote) == Bare(s[2..], IsQuote) == Bare(s[2..][1..], IsQuote) == Bare(rest, IsQuote);
  }

  lemma EchoOne(c: char, quote: bool, rest: string)
    requires c as int < 256
    ensures ReadsAs(EchoEnc(quote)(c), c, !quote && c == '"', rest)
  {
    hide ReadsAs;
    if !IsEchoSpecial(c) { ReadsPlain(c, rest); }
    else if EchoLetter(c).Some? { ReadsLetter(EchoLetter(c).value, rest); }
    else if c == '"' { if quote { ReadsLetter(c, rest); } else { ReadsPlain(c, rest); } }
    else { ReadsHex(c, rest); }
  }

  /** The escaped string is printable, means the original one as a C string, and has a bare quotation
      mark if and only if there is one and quotation marks are not to be escaped. */
  lemma {:induction false} EchoRoundTrip(s: Bytes, quote: bool)
    ensures var e := Flat(s, EchoEnc(quote));
            Unecho(e) == s && (forall x :: x in e ==> IsPrintable(x)) && (Bare(e, IsQuote) <==> !quote && '"' in s)
  {
    if s != "" {
      EchoRoundTrip(s[1..], quote);
      EchoOne(s[0], quote, Flat(s[1..], EchoEnc(quote)));
      assert s == [s[0]] + s[1..];
    }
  }

  /** A character that has a letter gets it. */
  lemma EchoIsShort(l: char, quote: bool)
    requires Letter(l) != l
    ensures EchoEnc(quote)(Letter(l)) == ['\\', l]
  {
  }

  // ----- the prefix of a path -------------------------------------------------------------------

  /** A colon before any slash: what is in front of it would be taken for a scheme. */
  predicate ColonFirst(s: string) { s != "" && s[0] != '/' && (s[0] == ':' || ColonFirst(s[1..])) }

  lemma {:induction false} ColonBeforeSlash(s: string)
    ensures ColonFirst(s) <==> Strchr(s, ':') < |s| && Strchr(s, ':') < Strchr(s, '/')
  {
    if s != "" { ColonBeforeSlash(s[1..]); }
  }

  lemma ColonNext(c: char, rest: string)
    ensures ColonFirst([c] + rest) <==> c != '/' && (c == ':' || ColonFirst(rest))
  {
    assert ([c] + rest)[1..] == rest;
  }

  lemma {:induction false} EscapingKeepsColons(s: CString)
    ensures ColonFirst(Flat(s, PathEnc)) <==> ColonFirst(s)
  {
    if s != "" {
      var c, rest := s[0], Flat(s[1..], PathEnc);
      EscapingKeepsColons(s[1..]);
      if IsPathSpecial(c) {
        var h, l := HexDigit(c as int / 16), HexDigit(c as int % 16);
        assert Flat(s, PathEnc) == ['%'] + ([h] + ([l] + rest));
        ColonNext('%', [h] + ([l] + rest));
        ColonNext(h, [l] + rest);
        ColonNext(l, rest);
      } else {
        ColonNext(c, rest);
      }
    }
  }

  lemma {:induction false} PrefixHasColonFirst(s: string, n: nat)
    requires n <= |s| && ColonFirst(s[..n])
    ensures ColonFirst(s)
  {
    if s[0] != ':' {
      assert s[..n][1..] == s[1..][..n - 1];
      PrefixHasColonFirst(s[1..], n - 1);
    }
  }

  /** An escaped path is never taken for a URL with a scheme, unless it is said to be partial; and it
      begins with the "./" for this only if the path would be. */
  lemma NeverAScheme(path: CString, slen: int, partial: bool)
    ensures ColonFirst(PathOut(path, slen, partial)) <==> partial && ColonFirst(Input(path, slen))
    ensures PathOut(path, slen, partial) != Flat(Input(path, slen), PathEnc) <==> !partial && ColonFirst(path)
  {
    var e := Flat(Input(path, slen), PathEnc);
    ColonBeforeSlash(path);
    EscapingKeepsColons(Input(path, slen));
    assert Input(path, slen) == path[..|Input(path, slen)|];
    if ColonFirst(Input(path, slen)) { PrefixHasColonFirst(path, |Input(path, slen)|); }
    if NeedsDot(path, partial) {
      assert |PathOut(path, slen, partial)| == |e| + 2;
      assert ("./" + e)[0] == '.' && ("./" + e)[1..][0] == '/';
    } else {
      assert PathOut(path, slen, partial) == e;
    }
  }

  // ----- the character classes ------------------------------------------------------------------

  /** Section 2.3 of RFC 3986. */
  predicate IsUnreserved(c: char) { IsAlnum(c) || c == '-' || c == '.' || c == '_' || c == '~' }

  /** Section 2.2 of RFC 3986. */
  predicate IsSubDelim(c: char) { c in "!$&'()*+,;=" }

  /** Section 3.3 of RFC 3986: what a path segment may hold unescaped. */
  predicate IsPchar(c: char) { IsUnreserved(c) || IsSubDelim(c) || c == ':' || c == '@' }

  /** Section 2.2 of the Shell Command Language of IEEE Std 1003.1: what has to be quoted to stand for
      itself, but for the blanks; and what may have to be, but for '#', '=' and '%'. */
  predicate IsShellQuoted(c: char) { c in "|&;<>()$`\\\"'\n" || c in "*?[~" }

  /** In a segment all but those characters are escaped, and the ';' that separates its parameters; in a
      path the slash is left; in a form only four unreserved marks are, and the space is a '+'. For a
      shell, brackets, braces and the caret are escaped besides what it wants quoted. */
  lemma ClassesFitStandards(c: char)
    ensures IsSegmentSpecial(c) <==> !IsPchar(c) || c == ';'
    ensures IsPathSpecial(c) <==> IsSegmentSpecial(c) && c != '/'
    ensures IsFormSpecial(c) <==> !((IsUnreserved(c) && c != '~') || c == '*' || c == ' ')
    ensures IsEchoSpecial(c) <==> !IsPrintable(c) || IsQuote(c) || c == '\\'
    ensures IsShellSpecial(c) <==> IsShellQuoted(c) || c in "]^{}"
  {
  }

  /** What an escaped string may consist of. */
  lemma {:induction false} OutputFits(s: CString, enc: Encoder, plain: char -> bool)
    requires forall c :: 0 < c as int < 256 ==> enc(c) == Percent(c) || (|enc(c)| == 1 && plain(enc(c)[0]))
    ensures forall x :: x in Flat(s, enc) ==> x == '%' || IsXDigit(x) || plain(x)
  {
    if s != "" { OutputFits(s[1..], enc, plain); }
  }

  predicate IsFormChar(c: char) { (IsUnreserved(c) && c != '~') || c == '*' || c == '+' }

  predicate IsPathChar(c: char) { IsPchar(c) || c == '/' }

  /** A segment holds what a segment may hold, a path also slashes, and a form no space. */
  lemma OutputsFitStandards(s: CString)
    ensures forall x :: x in Flat(s, SegmentEnc) ==> x == '%' || (IsPchar(x) && x != ';')
    ensures forall x :: x in Flat(s, PathEnc) ==> x == '%' || (IsPathChar(x) && x != ';')
    ensures forall x :: x in Flat(s, FormEnc) ==> x == '%' || IsFormChar(x)
  {
    OutputFits(s, SegmentEnc, c => IsPchar(c) && c != ';');
    OutputFits(s, PathEnc, c => IsPathChar(c) && c != ';');
    OutputFits(s, FormEnc, IsFormChar);
  }
}

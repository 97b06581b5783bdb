/** The escape functions of apr_escape.c, with a buffer or, for a query of the length, without.

    A function that is given no string has None for its str; a negative slen is APR_ESCAPE_STRING.
    Each function is proved to report the same with a buffer and without, namely what module
    EscapeSpec says, and to write exactly as many bytes as it reports. */
module Escape {
  import opened Common
  import opened EscapeSpec

  // ----- the buffer -----------------------------------------------------------------------------

  function Buffer(d: array?<char>): set<array<char>> { if d == null then {} else {d} }

  /** `out` has been written from the start of the buffer, and the rest is as it was. */
  ghost predicate Holds(d: array<char>, was: string, out: string)
    reads d
  {
    |out| <= |was| == d.Length && d[..] == out + was[|out|..]
  }

  method Put(d: array<char>, k: nat, c: char, ghost was: string, ghost out: string)
    requires Holds(d, was, out) && k == |out| < d.Length
    modifies d
    ensures Holds(d, was, out + [c])
  {
    d[k] := c;
    assert was[|out|..] == [was[|out|]] + was[|out| + 1..];
    assert d[..] == (out + was[|out|..])[|out| := c];
  }

  /** d[-1] = c. */
  method Overwrite(d: array<char>, k: nat, c: char, ghost was: string, ghost out: string)
    requires |out| < d.Length && Holds(d, was, out + ['\\']) && k == |out| + 1
    modifies d
    ensures Holds(d, was, out + [c])
  {
    d[k - 1] := c;
    assert d[..] == (out + ['\\'] + was[k..])[|out| := c];
  }

  /** memcpy of a literal. */
  method Copy(d: array<char>, k: nat, text: string, ghost was: string, ghost out: string)
    requires Holds(d, was, out) && k == |out| && k + |text| <= d.Length
    modifies d
    ensures Holds(d, was, out + text)
  {
    assert out + text[..0] == out;
    for i := 0 to |text|
      invariant Holds(d, was, out + text[..i])
    {
      Put(d, k + i, text[i], was, out + text[..i]);
      assert out + text[..i] + [text[i]] == out + text[..i + 1];
    }
    assert text[..|text|] == text;
  }

  /** apr_escape.c:329-339. */
  method C2x(what: char, prefix: char, d: array<char>, k: nat, ghost was: string, ghost out: string)
    returns (where: nat)
    requires what as int < 256 && Holds(d, was, out) && k == |out| && k + 3 <= d.Length
    modifies d
    ensures where == k + 3 && Holds(d, was, out + ([prefix] + Hex(what)))
  {
    Put(d, k, prefix, was, out);
    Put(d, k + 1, HexDigit(what as int / 16), was, out + [prefix]);
    Put(d, k + 2, HexDigit(what as int % 16), was, out + [prefix] + [HexDigit(what as int / 16)]);
    where := k + 3;
    assert out + [prefix] + [HexDigit(what as int / 16)] + [HexDigit(what as int % 16)] == out + ([prefix] + Hex(what));
  }

  // ----- contracts ------------------------------------------------------------------------------

  predicate Room(d: array?<char>, out: string) { d != null ==> |out| < d.Length }

  /** What a function that escapes character by character has to write. */
  function Output(str: Option<CString>, slen: int, enc: Encoder): string {
    if str.None? then "" else Flat(Input(str.value, slen), enc)
  }

  function StatusOf(str: Option<CString>, slen: int, enc: Encoder): Status {
    if str.Some? && Found(Input(str.value, slen), enc) then SUCCESS else NOTFOUND
  }

  /** The output and its terminator have been written, and nothing else. */
  twostate predicate Wrote(d: array?<char>, out: string)
    reads Buffer(d)
  {
    d != null ==> Holds(d, old(d[..]), out + ['\0'])
  }

  /** What a loop has counted after i characters. */
  ghost predicate Progress(input: string, i: nat, enc: Encoder, size: nat, found: bool) {
    && i <= |input| && (found <==> Found(input[..i], enc))
    && size == |Flat(input[..i], enc)| + 1 <= |Flat(input, enc)| + 1
  }

  // ----- escaping -------------------------------------------------------------------------------

  /** apr_escape.c:81-138, without the line ends of WIN32 and OS2. */
  method EscapeShell(escaped: array?<char>, str: Option<CString>, slen: int) returns (status: Status, len: nat)
    requires Room(escaped, Output(str, slen, ShellEnc))
    modifies Buffer(escaped)
    ensures status == StatusOf(str, slen, ShellEnc) && len == |Output(str, slen, ShellEnc)| + 1
    ensures str.Some? ==> Wrote(escaped, Output(str, slen, ShellEnc))
  {
    len, status := 1, NOTFOUND;
    if str.Some? {
      var found;
      if escaped != null {
        len, found := EscapeShellWrite(escaped, str.value, slen);
      } else {
        len, found := EscapeShellQuery(str.value, slen);
      }
      status := if !found then NOTFOUND else SUCCESS;
    }
  }

  method EscapeShellWrite(d: array<char>, s: CString, slen: int) returns (size: nat, found: bool)
    requires Room(d, Flat(Input(s, slen), ShellEnc))
    modifies d
    ensures size == |Flat(Input(s, slen), ShellEnc)| + 1 && (found <==> Found(Input(s, slen), ShellEnc))
    ensures Wrote(d, Flat(Input(s, slen), ShellEnc))
  {
    ghost var input, was := Input(s, slen), d[..];
    var i, n := 0, slen;
    size, found := 1, false;
    while i < |s| && n != 0
      invariant 0 <= i <= |input| && n == slen - i
      invariant Progress(input, i, ShellEnc, size, found) && Holds(d, was, Flat(input[..i], ShellEnc))
    {
      size, found := EscapeShellChar(d, s[i], size, found, input, i, was);
      i, n := i + 1, n - 1;
    }
    assert input[..i] == input;
    Put(d, size - 1, '\0', was, Flat(input, ShellEnc));
  }

  /** The loop body with a buffer: 109-115. */
  method EscapeShellChar(d: array<char>, c: char, size: nat, found: bool, ghost input: CString, ghost i: nat,
      ghost was: string)
    returns (size': nat, found': bool)
    requires i < |input| && input[i] == c && Room(d, Flat(input, ShellEnc))
    requires Progress(input, i, ShellEnc, size, found) && Holds(d, was, Flat(input[..i], ShellEnc))
    modifies d
    ensures Progress(input, i + 1, ShellEnc, size', found') && Holds(d, was, Flat(input[..i + 1], ShellEnc))
  {
    FlatNext(input, i, ShellEnc);
    ghost var out := Flat(input[..i], ShellEnc);
    var k := size - 1;
    size', found' := size, found;
    if IsShellSpecial(c) {
      Put(d, k, '\\', was, out);
      out := out + ['\\'];
      k := k + 1;
      size' := size' + 1;
      found' := true;
    }
    Put(d, k, c, was, out);
    size' := size' + 1;
    assert out + [c] == Flat(input[..i], ShellEnc) + ShellEnc(c);
  }

  method EscapeShellQuery(s: CString, slen: int) returns (size: nat, found: bool)
    ensures size == |Flat(Input(s, slen), ShellEnc)| + 1 && (found <==> Found(Input(s, slen), ShellEnc))
  {
    ghost var input := Input(s, slen);
    var i, n := 0, slen;
    size, found := 1, false;
    while i < |s| && n != 0
      invariant 0 <= i <= |input| && n == slen - i && Progress(input, i, ShellEnc, size, found)
    {
      FlatNext(input, i, ShellEnc);
      var c := s[i];
      if IsShellSpecial(c) {
        size := size + 1;
        found := true;
      }
      size := size + 1;
      i, n := i + 1, n - 1;
    }
    assert input[..i] == input;
  }

  /** apr_escape.c:341-388. */
  method EscapePathSegment(escaped: array?<char>, str: Option<CString>, slen: int) returns (status: Status, len: nat)
    requires Room(escaped, Output(str, slen, SegmentEnc))
    modifies Buffer(escaped)
    ensures status == StatusOf(str, slen, SegmentEnc) && len == |Output(str, slen, SegmentEnc)| + 1
    ensures str.Some? ==> Wrote(escaped, Output(str, slen, SegmentEnc))
  {
    len, status := 1, NOTFOUND;
    if str.Some? {
      var found;
      if escaped != null {
        len, found := EscapePathSegmentWrite(escaped, str.value, slen);
      } else {
        len, found := EscapePathSegmentQuery(str.value, slen);
      }
      status := if !found then NOTFOUND else SUCCESS;
    }
  }

  method EscapePathSegmentWrite(d: array<char>, s: CString, slen: int) returns (size: nat, found: bool)
    requires Room(d, Flat(Input(s, slen), SegmentEnc))
    modifies d
    ensures size == |Flat(Input(s, slen), SegmentEnc)| + 1 && (found <==> Found(Input(s, slen), SegmentEnc))
    ensures Wrote(d, Flat(Input(s, slen), SegmentEnc))
  {
    ghost var input, was := Input(s, slen), d[..];
    var i, n := 0, slen;
    size, found := 1, false;
    while i < |s| && n != 0
      invariant 0 <= i <= |input| && n == slen - i
      invariant Progress(input, i, SegmentEnc, size, found) && Holds(d, was, Flat(input[..i], SegmentEnc))
    {
      size, found := EscapePathSegmentChar(d, s[i], size, found, input, i, was);
      i, n := i + 1, n - 1;
    }
    assert input[..i] == input;
    Put(d, size - 1, '\0', was, Flat(input, SegmentEnc));
  }

  /** 353-362. */
  method EscapePathSegmentChar(d: array<char>, c: char, size: nat, found: bool, ghost input: CString, ghost i: nat,
      ghost was: string)
    returns (size': nat, found': bool)
    requires i < |input| && input[i] == c && Room(d, Flat(input, SegmentEnc))
    requires Progress(input, i, SegmentEnc, size, found) && Holds(d, was, Flat(input[..i], SegmentEnc))
    modifies d
    ensures Progress(input, i + 1, SegmentEnc, size', found') && Holds(d, was, Flat(input[..i + 1], SegmentEnc))
  {
    FlatNext(input, i, SegmentEnc);
    ghost var out := Flat(input[..i], SegmentEnc);
    var k := size - 1;
    size', found' := size, found;
    if IsSegmentSpecial(c) {
      var _ := C2x(c, '%', d, k, was, out);
      size' := size' + 2;
      found' := true;
    } else {
      Put(d, k, c, was, out);
    }
    size' := size' + 1;
  }

  method EscapePathSegmentQuery(s: CString, slen: int) returns (size: nat, found: bool)
    ensures size == |Flat(Input(s, slen), SegmentEnc)| + 1 && (found <==> Found(Input(s, slen), SegmentEnc))
  {
    ghost var input := Input(s, slen);
    var i, n := 0, slen;
    size, found := 1, false;
    while i < |s| && n != 0
      invariant 0 <= i <= |input| && n == slen - i && Progress(input, i, SegmentEnc, size, found)
    {
      FlatNext(input, i, SegmentEnc);
      var c := s[i];
      if IsSegmentSpecial(c) {
        size := size + 2;
        found := true;
      }
      size := size + 1;
      i, n := i + 1, n - 1;
    }
    assert input[..i] == input;
  }

  /** apr_escape.c:492-546. */
  method EscapeUrlEncoded(escaped: array?<char>, str: Option<CString>, slen: int) returns (status: Status, len: nat)
    requires Room(escaped, Output(str, slen, FormEnc))
    modifies Buffer(escaped)
    ensures status == StatusOf(str, slen, FormEnc) && len == |Output(str, slen, FormEnc)| + 1
    ensures str.Some? ==> Wrote(escaped, Output(str, slen, FormEnc))
  {
    len, status := 1, NOTFOUND;
    if str.Some? {
      var found;
      if escaped != null {
        len, found := EscapeUrlEncodedWrite(escaped, str.value, slen);
      } else {
        len, found := EscapeUrlEncodedQuery(str.value, slen);
      }
      status := if !found then NOTFOUND else SUCCESS;
    }
  }

  method EscapeUrlEncodedWrite(d: array<char>, s: CString, slen: int) returns (size: nat, found: bool)
    requires Room(d, Flat(Input(s, slen), FormEnc))
    modifies d
    ensures size == |Flat(Input(s, slen), FormEnc)| + 1 && (found <==> Found(Input(s, slen), FormEnc))
    ensures Wrote(d, Flat(Input(s, slen), FormEnc))
  {
    ghost var input, was := Input(s, slen), d[..];
    var i, n := 0, slen;
    size, found := 1, false;
    while i < |s| && n != 0
      invariant 0 <= i <= |input| && n == slen - i
      invariant Progress(input, i, FormEnc, size, found) && Holds(d, was, Flat(input[..i], FormEnc))
    {
      size, found := EscapeUrlEncodedChar(d, s[i], size, found, input, i, was);
      i, n := i + 1, n - 1;
    }
    assert input[..i] == input;
    Put(d, size - 1, '\0', was, Flat(input, FormEnc));
  }

  /** 504-517. */
  method EscapeUrlEncodedChar(d: array<char>, c: char, size: nat, found: bool, ghost input: CString, ghost i: nat,
      ghost was: string)
    returns (size': nat, found': bool)
    requires i < |input| && input[i] == c && Room(d, Flat(input, FormEnc))
    requires Progress(input, i, FormEnc, size, found) && Holds(d, was, Flat(input[..i], FormEnc))
    modifies d
    ensures Progress(input, i + 1, FormEnc, size', found') && Holds(d, was, Flat(input[..i + 1], FormEnc))
  {
    FlatNext(input, i, FormEnc);
    ghost var out := Flat(input[..i], FormEnc);
    var k := size - 1;
    size', found' := size, found;
    if IsFormSpecial(c) {
      var _ := C2x(c, '%', d, k, was, out);
      size' := size' + 2;
      found' := true;
    } else if c == ' ' {
      Put(d, k, '+', was, out);
      found' := true;
    } else {
      Put(d, k, c, was, out);
    }
    size' := size' + 1;
  }

  method EscapeUrlEncodedQuery(s: CString, slen: int) returns (size: nat, found: bool)
    ensures size == |Flat(Input(s, slen), FormEnc)| + 1 && (found <==> Found(Input(s, slen), FormEnc))
  {
    ghost var input := Input(s, slen);
    var i, n := 0, slen;
    size, found := 1, false;
    while i < |s| && n != 0
      invariant 0 <= i <= |input| && n == slen - i && Progress(input, i, FormEnc, size, found)
    {
      FlatNext(input, i, FormEnc);
      var c := s[i];
      if IsFormSpecial(c) {
        size := size + 2;
        found := true;
      } else if c == ' ' {
        found := true;
      }
      size := size + 1;
      i, n := i + 1, n - 1;
    }
    assert input[..i] == input;
  }

  /** apr_escape.c:566-677 with toasc = 0. */
  method EscapeEntity(escaped: array?<char>, str: Option<CString>, slen: int) returns (status: Status, len: nat)
    requires Room(escaped, Output(str, slen, EntityEnc))
    modifies Buffer(escaped)
    ensures status == StatusOf(str, slen, EntityEnc) && len == |Output(str, slen, EntityEnc)| + 1
    ensures str.Some? ==> Wrote(escaped, Output(str, slen, EntityEnc))
  {
    len, status := 1, NOTFOUND;
    if str.Some? {
      var found;
      if escaped != null {
        len, found := EscapeEntityWrite(escaped, str.value, slen);
      } else {
        len, found := EscapeEntityQuery(str.value, slen);
      }
      status := if !found then NOTFOUND else SUCCESS;
    }
  }

  method EscapeEntityWrite(d: array<char>, s: CString, slen: int) returns (size: nat, found: bool)
    requires Room(d, Flat(Input(s, slen), EntityEnc))
    modifies d
    ensures size == |Flat(Input(s, slen), EntityEnc)| + 1 && (found <==> Found(Input(s, slen), EntityEnc))
    ensures Wrote(d, Flat(Input(s, slen), EntityEnc))
  {
    ghost var input, was := Input(s, slen), d[..];
    var i, n := 0, slen;
    size, found := 1, false;
    while i < |s| && n != 0
      invariant 0 <= i <= |input| && n == slen - i
      invariant Progress(input, i, EntityEnc, size, found) && Holds(d, was, Flat(input[..i], EntityEnc))
    {
      size, found := EscapeEntityChar(d, s[i], size, found, input, i, was);
      i, n := i + 1, n - 1;
    }
    assert input[..i] == input;
    Put(d, size - 1, '\0', was, Flat(input, EntityEnc));
  }

  /** 578-622. */
  method EscapeEntityChar(d: array<char>, c: char, size: nat, found: bool, ghost input: CString, ghost i: nat,
      ghost was: string)
    returns (size': nat, found': bool)
    requires i < |input| && input[i] == c && Room(d, Flat(input, EntityEnc))
    requires Progress(input, i, EntityEnc, size, found) && Holds(d, was, Flat(input[..i], EntityEnc))
    modifies d
    ensures Progress(input, i + 1, EntityEnc, size', found') && Holds(d, was, Flat(input[..i + 1], EntityEnc))
  {
    FlatNext(input, i, EntityEnc);
    ghost var out := Flat(input[..i], EntityEnc);
    var k := size - 1;
    size', found' := size, found;
    if IsXmlSpecial(c) {
      if c == '>' {
        Copy(d, k, "&gt;", was, out);
        size' := size' + 4;
      } else if c == '<' {
        Copy(d, k, "&lt;", was, out);
        size' := size' + 4;
      } else if c == '&' {
        Copy(d, k, "&amp;", was, out);
        size' := size' + 5;
      } else if c == '"' {
        Copy(d, k, "&quot;", was, out);
        size' := size' + 6;
      }
      found' := true;
    } else {
      Put(d, k, c, was, out);
      size' := size' + 1;
    }
  }

  method EscapeEntityQuery(s: CString, slen: int) returns (size: nat, found: bool)
    ensures size == |Flat(Input(s, slen), EntityEnc)| + 1 && (found <==> Found(Input(s, slen), EntityEnc))
  {
    ghost var input := Input(s, slen);
    var i, n := 0, slen;
    size, found := 1, false;
    while i < |s| && n != 0
      invariant 0 <= i <= |input| && n == slen - i && Progress(input, i, EntityEnc, size, found)
    {
      FlatNext(input, i, EntityEnc);
      var c := s[i];
      if IsXmlSpecial(c) {
        size := if c == '>' || c == '<' then size + 4 else if c == '&' then size + 5 else size + 6;
        found := true;
      } else {
        size := size + 1;
      }
      i, n := i + 1, n - 1;
    }
    assert input[..i] == input;
  }

  /** apr_escape.c:872-1000. */
  method EscapeEcho(escaped: array?<char>, str: Option<CString>, slen: int, quote: bool)
    returns (status: Status, len: nat)
    requires Room(escaped, Output(str, slen, EchoEnc(quote)))
    modifies Buffer(escaped)
    ensures status == StatusOf(str, slen, EchoEnc(quote)) && len == |Output(str, slen, EchoEnc(quote))| + 1
    ensures str.Some? ==> Wrote(escaped, Output(str, slen, EchoEnc(quote)))
  {
    len, status := 1, NOTFOUND;
    if str.Some? {
      var found;
      if escaped != null {
        len, found := EscapeEchoWrite(escaped, str.value, slen, quote);
      } else {
        len, found := EscapeEchoQuery(str.value, slen, quote);
      }
      status := if !found then NOTFOUND else SUCCESS;
    }
  }

  method EscapeEchoWrite(d: array<char>, s: CString, slen: int, quote: bool) returns (size: nat, found: bool)
    requires Room(d, Flat(Input(s, slen), EchoEnc(quote)))
    modifies d
    ensures size == |Flat(Input(s, slen), EchoEnc(quote))| + 1 && (found <==> Found(Input(s, slen), EchoEnc(quote)))
    ensures Wrote(d, Flat(Input(s, slen), EchoEnc(quote)))
  {
    ghost var input, was := Input(s, slen), d[..];
    var i, n := 0, slen;
    size, found := 1, false;
    assert Progress(input, i, EchoEnc(quote), size, found) && Holds(d, was, Flat(input[..i], EchoEnc(quote)));
    hide EchoEnc, Holds;
    while i < |s| && n != 0
      invariant 0 <= i <= |input| && n == slen - i
      invariant Progress(input, i, EchoEnc(quote), size, found) && Holds(d, was, Flat(input[..i], EchoEnc(quote)))
    {
      size, found := EscapeEchoStep(d, s[i], quote, size, found, input, i, was);
      i, n := i + 1, n - 1;
    }
    assert input[..i] == input && |input| == i;
    Put(d, size - 1, '\0', was, Flat(input, EchoEnc(quote)));
  }

  method EscapeEchoStep(d: array<char>, c: char, quote: bool, size: nat, found: bool,
      ghost input: CString, ghost i: nat, ghost was: string)
    returns (size': nat, found': bool)
    requires i < |input| && input[i] == c && Room(d, Flat(input, EchoEnc(quote)))
    requires Progress(input, i, EchoEnc(quote), size, found) && Holds(d, was, Flat(input[..i], EchoEnc(quote)))
    modifies d
    ensures Progress(input, i + 1, EchoEnc(quote), size', found') && Holds(d, was, Flat(input[..i + 1], EchoEnc(quote)))
  {
    FlatNext(input, i, EchoEnc(quote));
    var more, hit := EscapeEchoChar(d, size - 1, c, quote, was, Flat(input[..i], EchoEnc(quote)));
    size', found' := size + more, found || hit;
  }

  /** 884-949. */
  method EscapeEchoChar(d: array<char>, k: nat, c: char, quote: bool, ghost was: string, ghost out: string)
    returns (size: nat, found: bool)
    requires 0 < c as int < 256 && Holds(d, was, out) && k == |out| && k + |EchoEnc(quote)(c)| <= d.Length
    modifies d
    ensures Holds(d, was, out + EchoEnc(quote)(c)) && size == |EchoEnc(quote)(c)|
    ensures found <==> EchoEnc(quote)(c) != [c]
  {
    size, found := 0, false;
    if IsEchoSpecial(c) {
      Put(d, k, '\\', was, out);
      size := size + 1;
      if EchoLetter(c).Some? {
        Put(d, k + 1, EchoLetter(c).value, was, out + ['\\']);
        assert out + ['\\'] + [EchoLetter(c).value] == out + EchoEnc(quote)(c);
        size, found := size + 1, true;
      } else if c == '"' {
        if quote {
          Put(d, k + 1, c, was, out + ['\\']);
          assert out + ['\\'] + [c] == out + EchoEnc(quote)(c);
          size, found := size + 1, true;
        } else {
          Overwrite(d, k + 1, c, was, out);
        }
      } else {
        var _ := C2x(c, 'x', d, k + 1, was, out + ['\\']);
        assert out + ['\\'] + (['x'] + Hex(c)) == out + EchoEnc(quote)(c);
        size, found := size + 3, true;
      }
    } else {
      Put(d, k, c, was, out);
      size := size + 1;
    }
  }

  method EscapeEchoQuery(s: CString, slen: int, quote: bool) returns (size: nat, found: bool)
    ensures size == |Flat(Input(s, slen), EchoEnc(quote))| + 1 && (found <==> Found(Input(s, slen), EchoEnc(quote)))
  {
    hide EchoEnc;
    ghost var input := Input(s, slen);
    var i, n := 0, slen;
    size, found := 1, false;
    while i < |s| && n != 0
      invariant 0 <= i <= |input| && n == slen - i && Progress(input, i, EchoEnc(quote), size, found)
    {
      FlatNext(input, i, EchoEnc(quote));
      var more, hit := EscapeEchoCount(s[i], quote);
      size, found := size + more, found || hit;
      i, n := i + 1, n - 1;
    }
    assert input[..i] == input;
  }

  /** 957-985. */
  method EscapeEchoCount(c: char, quote: bool) returns (size: nat, found: bool)
    requires 0 < c as int < 256
    ensures size == |EchoEnc(quote)(c)| && (found <==> EchoEnc(quote)(c) != [c])
  {
    size, found := 0, false;
    if IsEchoSpecial(c) {
      size := size + 1;
      if EchoLetter(c).Some? {
        size, found := size + 1, true;
      } else if c == '"' {
        if quote {
          size, found := size + 1, true;
        }
      } else {
        size, found := size + 3, true;
      }
    } else {
      size := size + 1;
    }
  }

  /** apr_escape.c:409-471. Without a path, len is not set. */
  method EscapePath(escaped: array?<char>, path: Option<CString>, slen: int, partial: bool)
    returns (status: Status, len: nat)
    requires path.Some? ==> Room(escaped, PathOut(path.value, slen, partial))
    modifies Buffer(escaped)
    ensures path.None? ==> status == NOTFOUND
    ensures path.Some? ==>
              && len == |PathOut(path.value, slen, partial)| + 1 && Wrote(escaped, PathOut(path.value, slen, partial))
              && status == (if NeedsDot(path.value, partial) || Found(Input(path.value, slen), PathEnc) then SUCCESS
                            else NOTFOUND)
  {
    len, status := 0, NOTFOUND;
    if path.Some? {
      var s := path.value;
      var dot := false;
      if !partial {
        var colon, slash := Strchr(s, ':'), Strchr(s, '/');
        dot := colon < |s| && colon < slash;
      }
      var prefix, found := if dot then "./" else "", dot;
      if escaped != null {
        ghost var was := escaped[..];
        PutPrefix(escaped, prefix);
        len, found := EscapePathWrite(escaped, s, slen, prefix, was);
      } else {
        len, found := EscapePathQuery(s, slen);
      }
      len := len + |prefix|;
      status := if !dot && !found then NOTFOUND else SUCCESS;
    }
  }

  /** 427-430. */
  method PutPrefix(d: array<char>, prefix: string)
    requires |prefix| <= d.Length
    modifies d
    ensures Holds(d, old(d[..]), prefix)
  {
    Copy(d, 0, prefix, d[..], "");
    assert "" + prefix == prefix;
  }

  /** 435-450, behind what has been written already. */
  method EscapePathWrite(d: array<char>, s: CString, slen: int, prefix: string, ghost was: string)
    returns (size: nat, found: bool)
    requires Room(d, prefix + Flat(Input(s, slen), PathEnc)) && Holds(d, was, prefix)
    modifies d
    ensures size == |Flat(Input(s, slen), PathEnc)| + 1 && (found <==> Found(Input(s, slen), PathEnc))
    ensures Holds(d, was, prefix + Flat(Input(s, slen), PathEnc) + ['\0'])
  {
    ghost var input := Input(s, slen);
    var i, n := 0, slen;
    size, found := 1, false;
    assert prefix + "" == prefix;
    while i < |s| && n != 0
      invariant 0 <= i <= |input| && n == slen - i
      invariant Progress(input, i, PathEnc, size, found) && Holds(d, was, prefix + Flat(input[..i], PathEnc))
    {
      size, found := EscapePathChar(d, s[i], size, found, prefix, input, i, was);
      i, n := i + 1, n - 1;
    }
    assert input[..i] == input;
    Put(d, |prefix| + size - 1, '\0', was, prefix + Flat(input, PathEnc));
  }

  /** 437-447. */
  method EscapePathChar(d: array<char>, c: char, size: nat, found: bool, prefix: string, ghost input: CString,
      ghost i: nat, ghost was: string)
    returns (size': nat, found': bool)
    requires i < |input| && input[i] == c && Room(d, prefix + Flat(input, PathEnc))
    requires Progress(input, i, PathEnc, size, found) && Holds(d, was, prefix + Flat(input[..i], PathEnc))
    modifies d
    ensures Progress(input, i + 1, PathEnc, size', found') && Holds(d, was, prefix + Flat(input[..i + 1], PathEnc))
  {
    FlatNext(input, i, PathEnc);
    ghost var out := prefix + Flat(input[..i], PathEnc);
    assert out + PathEnc(c) == prefix + Flat(input[..i + 1], PathEnc);
    var k := |prefix| + size - 1;
    size', found' := size, found;
    if IsPathSpecial(c) {
      k := C2x(c, '%', d, k, was, out);
      size' := size' + 2;
      found' := true;
    } else {
      Put(d, k, c, was, out);
    }
    size' := size' + 1;
  }

  /** 452-460. */
  method EscapePathQuery(s: CString, slen: int) returns (size: nat, found: bool)
    ensures size == |Flat(Input(s, slen), PathEnc)| + 1 && (found <==> Found(Input(s, slen), PathEnc))
  {
    ghost var input := Input(s, slen);
    var i, n := 0, slen;
    size, found := 1, false;
    while i < |s| && n != 0
      invariant 0 <= i <= |input| && n == slen - i && Progress(input, i, PathEnc, size, found)
    {
      FlatNext(input, i, PathEnc);
      var c := s[i];
      if IsPathSpecial(c) {
        size := size + 2;
        found := true;
      }
      size := size + 1;
      i, n := i + 1, n - 1;
    }
    assert input[..i] == input;
  }
}

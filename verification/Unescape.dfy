/** The unescape functions of apr_escape.c, with a buffer or, for a query of the length, without
    (apr_unescape_url and apr_unescape_entity for whole strings, APR_ESCAPE_STRING); and the two
    functions for hexadecimal digits.

    Each is proved to report the same with a buffer and without, namely what module EscapeSpec says. */
module Unescape {
  import opened Common
  import opened EscapeSpec
  import opened Escape

  // ----- apr_unescape_url -----------------------------------------------------------------------

  /** x2c, apr_escape.c:158-177: two hexadecimal digits. */
  method DecodePair(hi: char, lo: char) returns (c: char)
    requires IsXDigit(hi) && IsXDigit(lo)
    ensures c == X2c(hi, lo)
  {
    var digit := if hi >= 'A' then ClearBit5(hi as int) - 'A' as int + 10 else hi as int - '0' as int;
    digit := digit * 16;
    digit := digit + if lo >= 'A' then ClearBit5(lo as int) - 'A' as int + 10 else lo as int - '0' as int;
    c := digit as char;
  }

  /** After i characters: `out` and the flags so far, and the rest still to come. */
  ghost predicate UrlProgress(s: string, r: Rules, i: nat, out: string, badesc: bool, badpath: bool, found: bool) {
    i <= |s| &&
    var rest := UrlDecode(s[i..], r);
    UrlDecode(s, r) == Url(out + rest.out, badesc || rest.badesc, badpath || rest.badpath, found || rest.found)
  }

  /** apr_escape.c:179-290. Without a string, len is not set. */
  method UnescapeUrl(escaped: array?<char>, url: Option<CString>, r: Rules) returns (status: Status, len: nat)
    requires url.Some? ==> Room(escaped, UrlDecode(url.value, r).out)
    modifies Buffer(escaped)
    ensures url.None? ==> status == NOTFOUND
    ensures url.Some? ==>
              var u := UrlDecode(url.value, r);
              status == UrlStatus(u) && len == |u.out| + 1 && Wrote(escaped, u.out)
  {
    len, status := 0, NOTFOUND;
    if url.Some? {
      var badesc, badpath, found;
      if escaped != null {
        len, badesc, badpath, found := UnescapeUrlWrite(escaped, url.value, r);
      } else {
        len, badesc, badpath, found := UnescapeUrlQuery(url.value, r);
      }
      status := if badesc then EINVAL else if badpath then BADCH else if !found then NOTFOUND else SUCCESS;
    }
  }

  /** 197-236. */
  method UnescapeUrlWrite(d: array<char>, s: CString, r: Rules)
    returns (size: nat, badesc: bool, badpath: bool, found: bool)
    requires Room(d, UrlDecode(s, r).out)
    modifies d
    ensures UrlDecode(s, r) == Url(UrlDecode(s, r).out, badesc, badpath, found)
    ensures size == |UrlDecode(s, r).out| + 1 && Wrote(d, UrlDecode(s, r).out)
  {
    ghost var was, out := d[..], "";
    var i := 0;
    size, badesc, badpath, found := 1, false, false, false;
    assert s[0..] == s;
    while i < |s|
      invariant UrlProgress(s, r, i, out, badesc, badpath, found) && size == |out| + 1 && Holds(d, was, out)
      decreases |s| - i
    {
      var next, more := UrlStep(s, r, i);
      UrlAdvance(s, r, i, next, more, out, badesc, badpath, found);
      var text := TurnText(s, i, next, more);
      Copy(d, size - 1, text, was, out);
      out := out + text;
      size := size + |text|;
      badesc, badpath, found := badesc || more.badesc, badpath || more.badpath, found || more.found;
      i := next;
    }
    UrlDone(s, r, out, badesc, badpath, found);
    Put(d, size - 1, '\0', was, out);
  }

  /** What a turn adds to the output. */
  function TurnText(s: string, i: nat, next: nat, t: Turn): string
    requires i < next <= |s|
  {
    if t.kept then s[i..next] else [t.c]
  }

  lemma UrlAdvance(s: string, r: Rules, i: nat, next: nat, t: Turn,
                   out: string, badesc: bool, badpath: bool, found: bool)
    requires i < next <= |s| && UrlProgress(s, r, i, out, badesc, badpath, found) && UrlTurn(s, r, i, next, t)
    ensures UrlProgress(s, r, next, out + TurnText(s, i, next, t),
                        badesc || t.badesc, badpath || t.badpath, found || t.found)
    ensures |out + TurnText(s, i, next, t)| <= |UrlDecode(s, r).out|
  {
    var text, rest := TurnText(s, i, next, t), UrlDecode(s[next..], r).out;
    assert out + text + rest == out + (text + rest);
  }

  lemma UrlDone(s: string, r: Rules, out: string, badesc: bool, badpath: bool, found: bool)
    requires UrlProgress(s, r, |s|, out, badesc, badpath, found)
    ensures UrlDecode(s, r) == Url(out, badesc, badpath, found)
  {
    assert s[|s|..] == "" && out + "" == out;
  }

  ghost predicate UrlTurn(s: string, r: Rules, i: nat, next: nat, t: Turn)
    requires i < next <= |s|
  {
    var rest := UrlDecode(s[next..], r);
    UrlDecode(s[i..], r) ==
    Url(TurnText(s, i, next, t) + rest.out, t.badesc || rest.badesc, t.badpath || rest.badpath, t.found || rest.found)
  }

  /** What one turn of the loop does: keep a stretch of the string, or put a character. */
  datatype Turn = Turn(kept: bool, c: char, badesc: bool, badpath: bool, found: bool)

  /** 198-233. */
  method UrlStep(s: CString, r: Rules, i: nat) returns (next: nat, t: Turn)
    requires i < |s|
    ensures i < next <= |s| && UrlTurn(s, r, i, next, t)
  {
    ghost var tail := s[i..];
    next := i + 1;
    assert tail[1..] == s[i + 1..];
    if r.plus && s[i] == '+' {
      t := Turn(false, ' ', false, false, true);
    } else if s[i] != '%' {
      t := Turn(false, s[i], false, false, false);
    } else if !(i + 2 < |s| && IsXDigit(s[i + 1]) && IsXDigit(s[i + 2])) {
      t := Turn(false, '%', true, false, false);
    } else {
      assert Escaped(tail) && tail[1] == s[i + 1] && tail[2] == s[i + 2] && tail[3..] == s[i + 3..];
      var decoded := DecodePair(s[i + 1], s[i + 2]);
      next := i + 3;
      if decoded as int == 0 || Among(decoded, r.forbid) {
        t := Turn(false, decoded, false, true, false);
      } else if Among(decoded, r.reserved) {
        assert tail[..3] == s[i..i + 3];
        t := Turn(true, decoded, false, false, false);
      } else {
        t := Turn(false, decoded, false, false, true);
      }
    }
  }

  /** 240-271: what a turn of the query adds to the size and to the flags. */
  method UrlCount(s: CString, r: Rules, i: nat)
    returns (next: nat, size: nat, badesc: bool, badpath: bool, found: bool, ghost t: Turn)
    requires i < |s|
    ensures i < next <= |s| && UrlTurn(s, r, i, next, t)
    ensures size == |TurnText(s, i, next, t)| && badesc == t.badesc && badpath == t.badpath && found == t.found
  {
    ghost var at;
    at, t := UrlCase(s, r, i);
    next, size, badesc, badpath, found := i, 0, false, false, false;
    if r.plus && s[next] == '+' {
      found := true;
    } else if s[next] != '%' {
    } else if !(next + 2 < |s| && IsXDigit(s[next + 1]) && IsXDigit(s[next + 2])) {
      badesc := true;
    } else {
      var decoded := DecodePair(s[next + 1], s[next + 2]);
      if decoded as int == 0 || Among(decoded, r.forbid) {
        badpath := true;
        next := next + 2;
      } else if Among(decoded, r.reserved) {
        next := next + 2;
        size := size + 2;
      } else {
        next := next + 2;
        found := true;
      }
    }
    next, size := next + 1, size + 1;
  }

  /** The turn that the specification takes. */
  lemma UrlCase(s: CString, r: Rules, i: nat) returns (next: nat, t: Turn)
    requires i < |s|
    ensures i < next <= |s| && UrlTurn(s, r, i, next, t)
    ensures next == if Escaped(s[i..]) then i + 3 else i + 1
    ensures if Escaped(s[i..]) then
              var c := X2c(s[i + 1], s[i + 2]);
              && t.badpath == (c as int == 0 || Among(c, r.forbid)) && !t.badesc
              && t.kept == (!t.badpath && Among(c, r.reserved)) && t.found == (!t.badpath && !t.kept)
            else
              && !t.badpath && !t.kept && t.found == (r.plus && s[i] == '+')
              && t.badesc == (s[i] == '%')
  {
    var tail := s[i..];
    assert tail[1..] == s[i + 1..];
    next := i + 1;
    if Escaped(tail) {
      assert tail[1] == s[i + 1] && tail[2] == s[i + 2] && tail[3..] == s[i + 3..] && tail[..3] == s[i..i + 3];
      var c := X2c(s[i + 1], s[i + 2]);
      var bad := c as int == 0 || Among(c, r.forbid);
      var kept := !bad && Among(c, r.reserved);
      next, t := i + 3, Turn(kept, c, false, bad, !bad && !kept);
    } else if r.plus && s[i] == '+' {
      t := Turn(false, ' ', false, false, true);
    } else {
      t := Turn(false, s[i], s[i] == '%', false, false);
    }
  }

  /** 239-272. */
  method UnescapeUrlQuery(s: CString, r: Rules) returns (size: nat, badesc: bool, badpath: bool, found: bool)
    ensures UrlDecode(s, r) == Url(UrlDecode(s, r).out, badesc, badpath, found) && size == |UrlDecode(s, r).out| + 1
  {
    ghost var out := "";
    var i := 0;
    size, badesc, badpath, found := 1, false, false, false;
    assert s[0..] == s;
    while i < |s|
      invariant UrlProgress(s, r, i, out, badesc, badpath, found) && size == |out| + 1
      decreases |s| - i
    {
      var next, more, esc, path, did;
      ghost var t;
      next, more, esc, path, did, t := UrlCount(s, r, i);
      UrlAdvance(s, r, i, next, t, out, badesc, badpath, found);
      out := out + TurnText(s, i, next, t);
      size := size + more;
      badesc, badpath, found := badesc || esc, badpath || path, found || did;
      i := next;
    }
    UrlDone(s, r, out, badesc, badpath, found);
  }

  // ----- apr_unescape_entity --------------------------------------------------------------------

  /** 737-740: the end of the reference that begins at p, counted from there. */
  method EndOf(s: CString, p: nat) returns (i: nat)
    requires p < |s| && s[p] == '&'
    ensures i == Strchr(s[p..], ';') && 0 < i <= |s| - p
  {
    i := 1;
    assert s[p..][1..] == s[p + 1..];
    while p + i < |s| && s[p + i] != ';'
      invariant 0 < i <= |s| - p && Strchr(s[p..], ';') == i + Strchr(s[p + i..], ';')
    {
      assert s[p + i..][1..] == s[p + i + 1..];
      i := i + 1;
    }
  }

  /** 748-784: what the reference between p and p + i stands for. */
  method ResolveAt(s: CString, p: nat, i: nat) returns (ref: Reference)
    requires p + i < |s| && i > 0
    ensures ref == Resolve(s[p + 1..p + i])
  {
    hide Entities;
    ghost var name := s[p + 1..p + i];
    if i > 1 && s[p + 1] == '#' {
      var j, val: nat := 2, 0;
      while j < i && IsDigit(s[p + j])
        invariant 2 <= j <= i && Digits(name, 1, 0) == Digits(name, j - 1, val)
      {
        assert name[j - 1] == s[p + j];
        val := val * 10 + (s[p + j] as int - '0' as int);
        j := j + 1;
      }
      assert j < i ==> name[j - 1] == s[p + j];
      if j < i || val <= 8 || (val >= 11 && val <= 31) || (val >= 127 && val <= 160) || val >= 256 {
        ref := Dropped;
      } else {
        ref := Char(val as char);
      }
    } else {
      var table := Entities(i - 1);
      var n := 0;
      assert table[0..] == table;
      while n < |table| && table[n].0 != s[p + 1..p + i]
        invariant n <= |table| && Lookup(table, name) == Lookup(table[n..], name)
      {
        assert table[n..][1..] == table[n + 1..];
        n := n + 1;
      }
      ref := if n == |table| then Unknown else Char(table[n].1);
    }
  }

  ghost predicate EntityProgress(s: string, p: nat, out: string, found: bool, dropped: bool) {
    p <= |s| && var rest := EntityDecode(s[p..]);
    EntityDecode(s) == Text(out + rest.out, found || rest.found, dropped || rest.dropped)
  }

  /** A turn that goes on to next and adds text. */
  ghost predicate EntityTurn(s: string, p: nat, next: nat, text: string, found: bool, dropped: bool) {
    p < next <= |s| && var rest := EntityDecode(s[next..]);
    EntityDecode(s[p..]) == Text(text + rest.out, found || rest.found, dropped || rest.dropped)
  }

  lemma EntityAdvance(s: string, p: nat, next: nat, out: string, text: string, f: bool, f': bool, d: bool, d': bool)
    requires EntityProgress(s, p, out, f, d) && EntityTurn(s, p, next, text, f', d')
    ensures EntityProgress(s, next, out + text, f || f', d || d') && |out + text| <= |EntityDecode(s).out|
  {
    hide Resolve;
    assert out + text + EntityDecode(s[next..]).out == out + (text + EntityDecode(s[next..]).out);
  }

  lemma EntityDone(s: string, out: string, found: bool, dropped: bool)
    requires EntityProgress(s, |s|, out, found, dropped)
    ensures EntityDecode(s) == Text(out, found, dropped)
  {
    assert s[|s|..] == "" && out + "" == out;
  }

  /** What the specification does at p. */
  lemma EntityCase(s: CString, p: nat, i: nat, ref: Reference)
    requires p < |s| && (s[p] == '&' ==> i == Strchr(s[p..], ';'))
    requires s[p] == '&' && p + i < |s| ==> ref == Resolve(s[p + 1..p + i])
    ensures s[p] != '&' || p + i == |s| || ref.Unknown? ==> EntityTurn(s, p, p + 1, [s[p]], false, false)
    ensures s[p] == '&' && p + i < |s| && ref.Char? ==> EntityTurn(s, p, p + i + 1, [ref.c], true, false)
    ensures s[p] == '&' && p + i < |s| && ref.Dropped? ==> EntityTurn(s, p, p + i + 1, "", false, true)
  {
    var tail := s[p..];
    assert tail[1..] == s[p + 1..];
    if s[p] == '&' && p + i < |s| {
      assert tail[1..i] == s[p + 1..p + i] && tail[i + 1..] == s[p + i + 1..];
      assert "" + EntityDecode(tail[i + 1..]).out == EntityDecode(tail[i + 1..]).out;
    }
  }

  /** apr_escape.c:701-852. */
  method UnescapeEntity(unescaped: array?<char>, str: Option<CString>) returns (status: Status, len: nat)
    requires str.Some? ==> Room(unescaped, EntityDecode(str.value).out)
    modifies Buffer(unescaped)
    ensures str.None? ==> status == NOTFOUND && len == 1
    ensures str.Some? ==>
              var x := EntityDecode(str.value);
              status == TextStatus(x) && len == |x.out| + 1 && Wrote(unescaped, x.out)
  {
    len, status := 1, NOTFOUND;
    if str.Some? {
      var found;
      if unescaped != null {
        len, found := UnescapeEntityWrite(unescaped, str.value);
      } else {
        len, found := UnescapeEntityQuery(str.value);
      }
      status := if !found then NOTFOUND else SUCCESS;
    }
  }

  /** 731-787. */
  method UnescapeEntityWrite(d: array<char>, s: CString) returns (size: nat, found: bool)
    requires Room(d, EntityDecode(s).out)
    modifies d
    ensures size == |EntityDecode(s).out| + 1 && found == EntityDecode(s).found && Wrote(d, EntityDecode(s).out)
  {
    ghost var was, out, dropped := d[..], "", false;
    var p := 0;
    size, found := 1, false;
    assert s[0..] == s;
    while p < |s|
      invariant EntityProgress(s, p, out, found, dropped) && size == |out| + 1 && Holds(d, was, out)
      decreases |s| - p
    {
      var next, c, did := EntityStep(s, p);
      ghost var text := if c.None? then "" else [c.value];
      EntityAdvance(s, p, next, out, text, found, did, dropped, c.None?);
      if c.Some? {
        Put(d, size - 1, c.value, was, out);
        size := size + 1;
      }
      assert out + "" == out;
      out, found, dropped := out + text, found || did, dropped || c.None?;
      p := next;
    }
    EntityDone(s, out, found, dropped);
    Put(d, size - 1, '\0', was, out);
  }

  /** 732-785; no character if there is no data to output. */
  method EntityStep(s: CString, p: nat) returns (next: nat, c: Option<char>, found: bool)
    requires p < |s|
    ensures EntityTurn(s, p, next, if c.None? then "" else [c.value], found, c.None?)
  {
    hide Resolve;
    next, c, found := p + 1, Some(s[p]), false;
    if s[p] != '&' {
      EntityCase(s, p, 0, Unknown);
      return;
    }
    var i := EndOf(s, p);
    if p + i == |s| {
      EntityCase(s, p, i, Unknown);
      return;
    }
    var ref := ResolveAt(s, p, i);
    EntityCase(s, p, i, ref);
    if ref.Dropped? {
      next, c := p + i + 1, None;
    } else if ref.Char? {
      next, c, found := p + i + 1, Some(ref.c), true;
    }
  }

  /** 790-840. */
  method UnescapeEntityQuery(s: CString) returns (size: nat, found: bool)
    ensures size == |EntityDecode(s).out| + 1 && found == EntityDecode(s).found
  {
    ghost var out, dropped := "", false;
    var p := 0;
    size, found := 1, false;
    assert s[0..] == s;
    while p < |s|
      invariant EntityProgress(s, p, out, found, dropped) && size == |out| + 1
      decreases |s| - p
    {
      ghost var text;
      var next, more, did;
      next, more, did, text := EntityCount(s, p);
      EntityAdvance(s, p, next, out, text, found, did, dropped, more == 0);
      size := size + more;
      out, found, dropped := out + text, found || did, dropped || more == 0;
      p := next;
    }
    EntityDone(s, out, found, dropped);
  }

  /** 791-839. */
  method EntityCount(s: CString, p: nat) returns (next: nat, size: nat, found: bool, ghost text: string)
    requires p < |s|
    ensures EntityTurn(s, p, next, text, found, size == 0) && size == |text|
  {
    hide Resolve;
    next, size, found, text := p, 1, false, [s[p]];
    if s[p] != '&' {
      EntityCase(s, p, 0, Unknown);
    } else {
      var i := EndOf(s, p);
      if p + i == |s| {
        EntityCase(s, p, i, Unknown);
      } else {
        var ref := ResolveAt(s, p, i);
        EntityCase(s, p, i, ref);
        if ref.Dropped? {
          next := next + i;
          size := size - 1;
          text := "";
        } else if ref.Char? {
          next := next + i;
          found := true;
          text := [ref.c];
        }
      }
    }
    next := next + 1;
  }

  // ----- apr_escape_hex -------------------------------------------------------------------------

  /** apr_escape.c:1021-1052. Without bytes, len is not set. */
  method EscapeHex(dest: array?<char>, src: Option<Bytes>, colon: bool) returns (status: Status, len: nat)
    requires src.Some? ==> Room(dest, HexEncode(src.value, colon, true))
    modifies Buffer(dest)
    ensures status == if src.None? then NOTFOUND else SUCCESS
    ensures src.Some? ==>
              len == |HexEncode(src.value, colon, true)| + 1 && Wrote(dest, HexEncode(src.value, colon, true))
  {
    len, status := 0, NOTFOUND;
    if src.Some? {
      var b := src.value;
      if dest != null { EscapeHexWrite(dest, b, colon); }
      HexLengthRight(b, colon);
      len := if colon && |b| > 0 then |b| * 3 else |b| * 2 + 1;
      status := SUCCESS;
    }
  }

  /** 1032-1039. */
  method EscapeHexWrite(d: array<char>, b: Bytes, colon: bool)
    requires Room(d, HexEncode(b, colon, true))
    modifies d
    ensures Wrote(d, HexEncode(b, colon, true))
  {
    ghost var was, out := d[..], "";
    var size, k := 0, 0;
    assert b[0..] == b && out + HexEncode(b, colon, true) == HexEncode(b, colon, true);
    HexAtEnd(b, colon);
    assert Holds(d, was, out);
    hide HexEncode, Hex, HexColon, Holds;
    while size < |b|
      invariant size <= |b| && k == |out| && Holds(d, was, out)
      invariant HexEncode(b, colon, true) == out + HexEncode(b[size..], colon, size == 0)
    {
      HexNext(b, size, colon, out);
      k := PutPair(d, k, b[size], colon, size, was, out);
      out := out + HexColon(colon, size) + Hex(b[size]);
      size := size + 1;
    }
    assert out + "" == out;
    Put(d, k, '\0', was, out);
  }

  /** 1033-1037. */
  method PutPair(d: array<char>, k: nat, c: char, colon: bool, size: nat, ghost was: string, ghost out: string)
    returns (where: nat)
    requires c as int < 256 && Holds(d, was, out) && k == |out| && |out + HexColon(colon, size)| + 2 <= d.Length
    modifies d
    ensures Holds(d, was, out + HexColon(colon, size) + Hex(c)) && where == |out + HexColon(colon, size) + Hex(c)|
  {
    where := k;
    if colon && size > 0 {
      Put(d, where, ':', was, out);
      where := where + 1;
    }
    assert out + HexColon(colon, size) == if colon && size > 0 then out + [':'] else out;
    Copy(d, where, Hex(c), was, out + HexColon(colon, size));
    where := where + 2;
  }

  lemma HexAtEnd(b: Bytes, colon: bool)
    ensures forall first :: HexEncode(b[|b|..], colon, first) == ""
  {
  }

  function HexColon(colon: bool, n: nat): string { if colon && n > 0 then ":" else "" }

  lemma HexNext(b: Bytes, n: nat, colon: bool, out: string)
    requires n < |b|
    ensures var rest := HexEncode(b[n + 1..], colon, false);
            && out + HexEncode(b[n..], colon, n == 0) == out + HexColon(colon, n) + Hex(b[n]) + rest
            && |out + HexEncode(b[n..], colon, n == 0)| >= |out + HexColon(colon, n)| + 2
    ensures out + "" == out
  {
    assert b[n..][1..] == b[n + 1..];
  }

  // ----- apr_unescape_hex -----------------------------------------------------------------------

  ghost predicate HexProgress(s: string, colon: bool, p: nat, out: string, high: Option<nat>) {
    p <= |s| && var rest := HexDecode(s[p..], colon, high);
    && HexDecode(s, colon, None) == (if rest.None? then None else Some(out + rest.value))
    && HexStored(s, colon, None) == out + HexStored(s[p..], colon, high)
  }

  lemma HexStart(s: string, colon: bool)
    ensures HexProgress(s, colon, 0, "", None)
  {
    assert s[0..] == s && "" + HexStored(s, colon, None) == HexStored(s, colon, None);
    var d := HexDecode(s, colon, None);
    if d.Some? { assert "" + d.value == d.value; }
  }

  /** One character of the string, by what it is. */
  lemma HexAdvance(s: string, colon: bool, p: nat, out: string, high: Option<nat>)
    requires p < |s| && HexProgress(s, colon, p, out, high)
    ensures colon && s[p] == ':' && high.None? ==> HexProgress(s, colon, p + 1, out, high)
    ensures !(colon && s[p] == ':' && high.None?) && !IsXDigit(s[p]) ==>
              HexDecode(s, colon, None).None? && HexStored(s, colon, None) == out + Half(high)
    ensures IsXDigit(s[p]) && high.None? ==>
              HexProgress(s, colon, p + 1, out, Some(HexValue(s[p]))) && |out| < |HexStored(s, colon, None)|
    ensures IsXDigit(s[p]) && high.Some? ==>
              HexProgress(s, colon, p + 1, out + [(16 * (high.value % 16) + HexValue(s[p])) as char], None)
  {
    assert s[p..][1..] == s[p + 1..];
    if IsXDigit(s[p]) && high.Some? {
      var c, rest := (16 * (high.value % 16) + HexValue(s[p])) as char, HexDecode(s[p + 1..], colon, None);
      if rest.Some? { assert out + ([c] + rest.value) == out + [c] + rest.value; }
      var stored := HexStored(s[p + 1..], colon, None);
      assert out + ([c] + stored) == out + [c] + stored;
    } else if IsXDigit(s[p]) {
      HalfStored(s[p + 1..], colon, Some(HexValue(s[p])));
    }
  }

  lemma {:induction false} HalfStored(s: string, colon: bool, high: Option<nat>)
    requires high.Some?
    ensures |HexStored(s, colon, high)| >= 1
  {
  }

  lemma HexDone(s: string, colon: bool, out: string, high: Option<nat>)
    requires HexProgress(s, colon, |s|, out, high)
    ensures HexDecode(s, colon, None) == Some(out) && HexStored(s, colon, None) == out + Half(high)
  {
    assert s[|s|..] == "" && out + "" == out;
  }

  /** 1096-1104 */
  method DigitValue(c: char) returns (v: nat)
    requires IsXDigit(c)
    ensures v == HexValue(c)
  {
    if IsDigit(c) { v := c as int - '0' as int; }
    else if c <= 'F' { v := c as int - ('A' as int - 10); }
    else { v := c as int - ('a' as int - 10); }
  }

  /** apr_escape.c:1073-1163. With BADCH, len is not set. */
  method UnescapeHex(dest: array?<char>, str: Option<CString>, slen: int, colon: bool)
    returns (status: Status, len: nat)
    requires dest != null && str.Some? ==> |HexStored(Input(str.value, slen), colon, None)| <= dest.Length
    modifies Buffer(dest)
    ensures str.None? ==> status == NOTFOUND && len == 0
    ensures str.Some? ==>
              var d := HexDecode(Input(str.value, slen), colon, None);
              status == (if d.None? then BADCH else SUCCESS) && (d.Some? ==> len == |d.value|)
    // the whole buffer: what is stored in it, and what stays as it was
    ensures str.Some? && dest != null ==>
              var t := HexStored(Input(str.value, slen), colon, None);
              dest[..|t|] == t && dest[|t|..] == old(dest[|t|..])
    ensures str.Some? && dest != null && status == SUCCESS ==>
              len <= dest.Length && dest[..len] == HexDecode(Input(str.value, slen), colon, None).value
  {
    len, status := 0, NOTFOUND;
    if str.Some? {
      if dest != null {
        ghost var input := Input(str.value, slen);
        status, len := UnescapeHexWrite(dest, str.value, slen, colon);
        if status == SUCCESS {
          HexStoredExact(input, colon, None);
          assert dest[..len] == HexStored(input, colon, None)[..len];
        }
      } else {
        status, len := UnescapeHexQuery(str.value, slen, colon);
      }
    }
  }

  /** 1085-1121. */
  method UnescapeHexWrite(d: array<char>, s: CString, slen: int, colon: bool) returns (status: Status, size: nat)
    requires |HexStored(Input(s, slen), colon, None)| <= d.Length
    modifies d
    ensures var out := HexDecode(Input(s, slen), colon, None);
            status == (if out.None? then BADCH else SUCCESS) && (out.Some? ==> size == |out.value|)
    ensures var t := HexStored(Input(s, slen), colon, None); d[..|t|] == t && d[|t|..] == old(d[|t|..])
  {
    hide HexProgress, HexDecode, HexStored, StoredSoFar;
    ghost var was, out: string, high: Option<nat>, input := d[..], "", None, Input(s, slen);
    var p, n, flip, u := 0, slen, false, 0;
    size := 0;
    HexStart(input, colon);
    NothingStored(d);
    while p < |s| && n != 0
      invariant p <= |input| && n == slen - p && HexProgress(input, colon, p, out, high) && size == |out|
      invariant flip == high.Some? && (flip ==> high.value < 16 && u == 16 * high.value)
      invariant StoredSoFar(d, was, out, high)
    {
      var c := s[p];
      HexAdvance(input, colon, p, out, high);
      if !flip { u := 0; }
      if colon && c == ':' && !flip {
      } else if !IsXDigit(c) {
        HoldsAll(d, was, out, high);
        return BADCH, 0;
      } else {
        var v := DigitValue(c);
        u := StoreDigit(d, size, u, v, flip, was, out, high);
        if flip {
          size := size + 1;
          out, high := out + [u as char], None;
        } else {
          high := Some(v);
        }
        flip := !flip;
      }
      p, n := p + 1, n - 1;
    }
    HexDone(input, colon, out, high);
    HoldsAll(d, was, out, high);
    status := SUCCESS;
  }

  /** The bytes so far, and the half of the next one, have been stored. */
  ghost predicate StoredSoFar(d: array<char>, was: string, out: string, high: Option<nat>)
    reads d
  {
    Holds(d, was, out + Half(high))
  }

  lemma NothingStored(d: array<char>)
    ensures StoredSoFar(d, d[..], "", None)
  {
  }

  lemma HoldsAll(d: array<char>, was: string, out: string, high: Option<nat>)
    requires StoredSoFar(d, was, out, high)
    ensures var t := out + Half(high); |t| <= d.Length && d[..|t|] == t && d[|t|..] == was[|t|..]
  {
  }

  /** 1096-1117: the first digit of a byte is stored, and the whole byte in its place. */
  method StoreDigit(d: array<char>, size: nat, bits: nat, v: nat, flip: bool,
      ghost was: string, ghost out: string, ghost high: Option<nat>)
    returns (u: nat)
    requires v < 16 && flip == high.Some? && bits == (if flip then 16 * high.value else 0) && (flip ==> high.value < 16)
    requires StoredSoFar(d, was, out, high) && size == |out| < d.Length
    modifies d
    ensures u == if flip then 16 * high.value + v else 16 * v
    ensures if flip then StoredSoFar(d, was, out + [u as char], None) else StoredSoFar(d, was, out, Some(v))
  {
    u := bits + v;
    if flip {
      StoreByte(d, size, u as char, Half(high)[0], was, out);
      assert out + [u as char] + "" == out + [u as char];
    } else {
      u := u * 16;
      assert out + "" == out;
      Put(d, size, u as char, was, out);
    }
  }

  /** 1110: the whole byte replaces its half. */
  method StoreByte(d: array<char>, k: nat, c: char, ghost half: char, ghost was: string, ghost out: string)
    requires Holds(d, was, out + [half]) && k == |out|
    modifies d
    ensures Holds(d, was, out + [c])
  {
    d[k] := c;
    assert d[..] == (out + [half] + was[k + 1..])[|out| := c];
  }

  /** 1124-1151. */
  method UnescapeHexQuery(s: CString, slen: int, colon: bool) returns (status: Status, size: nat)
    ensures var out := HexDecode(Input(s, slen), colon, None);
            status == (if out.None? then BADCH else SUCCESS) && (out.Some? ==> size == |out.value|)
  {
    hide HexProgress, HexDecode, HexStored;
    ghost var out: string, high: Option<nat>, input := "", None, Input(s, slen);
    var p, n, flip := 0, slen, false;
    size := 0;
    HexStart(input, colon);
    while p < |s| && n != 0
      invariant p <= |input| && n == slen - p && HexProgress(input, colon, p, out, high)
      invariant size == |out| && flip == high.Some?
    {
      var c := s[p];
      HexAdvance(input, colon, p, out, high);
      if colon && c == ':' && !flip {
      } else if !IsXDigit(c) {
        return BADCH, 0;
      } else {
        if flip {
          size := size + 1;
          out, high := out + [(16 * (high.value % 16) + HexValue(c)) as char], None;
        } else {
          high := Some(HexValue(c));
        }
        flip := !flip;
      }
      p, n := p + 1, n - 1;
    }
    HexDone(input, colon, out, high);
    status := SUCCESS;
  }
}

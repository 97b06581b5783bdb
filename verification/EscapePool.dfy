/** The pool functions of apr_escape.c: a query for the length, an allocation and a second call, or
    the argument itself if there is nothing to do. Each is proved to return the escaped or unescaped
    string in either case; apr_punescape_entity does so under the condition stated there. */
module EscapePool {
  import opened Common
  import opened EscapeSpec
  import opened Escape
  import opened Unescape

  /** What a function has written, without the terminator. */
  lemma ReadBack(d: array<char>, was: string, out: string)
    requires Holds(d, was, out + ['\0'])
    ensures |out| < d.Length && d[..|out|] == out
  {
    assert d[..|out|] == d[..][..|out|];
  }

  /** apr_escape.c:140-156. */
  method PEscapeShell(str: Option<CString>) returns (r: Option<string>)
    ensures r == if str.None? then None else Some(Flat(str.value, ShellEnc))
  {
    var status, len := EscapeShell(null, str, -1);
    if status == SUCCESS {
      var cmd := new char[len];
      ghost var was := cmd[..];
      var _, _ := EscapeShell(cmd, str, -1);
      ReadBack(cmd, was, Flat(str.value, ShellEnc));
      return Some(cmd[..len - 1]);
    }
    if str.None? { return None; }
    EncodersKeep(false);
    FlatSame(str.value, ShellEnc);
    return Some(str.value);
  }

  /** apr_escape.c:390-407. */
  method PEscapePathSegment(str: Option<CString>) returns (r: Option<string>)
    ensures r == if str.None? then None else Some(Flat(str.value, SegmentEnc))
  {
    var status, len := EscapePathSegment(null, str, -1);
    if status == SUCCESS {
      var cmd := new char[len];
      ghost var was := cmd[..];
      var _, _ := EscapePathSegment(cmd, str, -1);
      ReadBack(cmd, was, Flat(str.value, SegmentEnc));
      return Some(cmd[..len - 1]);
    }
    if str.None? { return None; }
    EncodersKeep(false);
    FlatSame(str.value, SegmentEnc);
    return Some(str.value);
  }

  /** apr_escape.c:473-490. */
  method PEscapePath(str: Option<CString>, partial: bool) returns (r: Option<string>)
    ensures r == if str.None? then None else Some(PathOut(str.value, -1, partial))
  {
    var status, len := EscapePath(null, str, -1, partial);
    if status == SUCCESS {
      var cmd := new char[len];
      ghost var was := cmd[..];
      var _, _ := EscapePath(cmd, str, -1, partial);
      ReadBack(cmd, was, PathOut(str.value, -1, partial));
      return Some(cmd[..len - 1]);
    }
    if str.None? { return None; }
    EncodersKeep(false);
    FlatSame(str.value, PathEnc);
    assert "" + str.value == str.value;
    return Some(str.value);
  }

  /** apr_escape.c:548-564. */
  method PEscapeUrlEncoded(str: Option<CString>) returns (r: Option<string>)
    ensures r == if str.None? then None else Some(Flat(str.value, FormEnc))
  {
    var status, len := EscapeUrlEncoded(null, str, -1);
    if status == SUCCESS {
      var cmd := new char[len];
      ghost var was := cmd[..];
      var _, _ := EscapeUrlEncoded(cmd, str, -1);
      ReadBack(cmd, was, Flat(str.value, FormEnc));
      return Some(cmd[..len - 1]);
    }
    if str.None? { return None; }
    EncodersKeep(false);
    FlatSame(str.value, FormEnc);
    return Some(str.value);
  }

  /** apr_escape.c:679-696. */
  method PEscapeEntity(str: Option<CString>) returns (r: Option<string>)
    ensures r == if str.None? then None else Some(Flat(str.value, EntityEnc))
  {
    var status, len := EscapeEntity(null, str, -1);
    if status == SUCCESS {
      var cmd := new char[len];
      ghost var was := cmd[..];
      var _, _ := EscapeEntity(cmd, str, -1);
      ReadBack(cmd, was, Flat(str.value, EntityEnc));
      return Some(cmd[..len - 1]);
    }
    if str.None? { return None; }
    EncodersKeep(false);
    FlatSame(str.value, EntityEnc);
    return Some(str.value);
  }

  /** apr_escape.c:1002-1019. */
  method PEscapeEcho(str: Option<CString>, quote: bool) returns (r: Option<string>)
    ensures r == if str.None? then None else Some(Flat(str.value, EchoEnc(quote)))
  {
    var status, len := EscapeEcho(null, str, -1, quote);
    if status == SUCCESS {
      var cmd := new char[len];
      ghost var was := cmd[..];
      var _, _ := EscapeEcho(cmd, str, -1, quote);
      ReadBack(cmd, was, Flat(str.value, EchoEnc(quote)));
      return Some(cmd[..len - 1]);
    }
    if str.None? { return None; }
    EncodersKeep(quote);
    FlatSame(str.value, EchoEnc(quote));
    return Some(str.value);
  }

  /** apr_escape.c:292-315. */
  method PUnescapeUrl(url: Option<CString>, r: Rules) returns (out: Option<string>)
    ensures out ==
              if url.None? || UrlStatus(UrlDecode(url.value, r)) in {EINVAL, BADCH} then None
              else Some(UrlDecode(url.value, r).out)
  {
    var status, len := UnescapeUrl(null, url, r);
    if status == SUCCESS {
      var buf := new char[len];
      ghost var was := buf[..];
      var _, _ := UnescapeUrl(buf, url, r);
      ReadBack(buf, was, UrlDecode(url.value, r).out);
      return Some(buf[..len - 1]);
    }
    if status == EINVAL || status == BADCH || url.None? { return None; }
    UrlNotFoundSame(url.value, r);
    return Some(url.value);
  }

  /** apr_escape.c:854-870. It returns the unescaped string if and only if something has been found
      or the string has no numeric reference. */
  method PUnescapeEntity(str: Option<CString>) returns (r: Option<string>)
    ensures str.None? ==> r == None
    ensures str.Some? ==> r.Some?
    ensures str.Some? ==>
              var x := EntityDecode(str.value);
              && (r.value == x.out <==> x.found || !Numeric(str.value))
              && (!x.found ==> r.value == str.value)
  {
    var status, len := UnescapeEntity(null, str);
    if status == SUCCESS {
      var cmd := new char[len];
      ghost var was := cmd[..];
      var _, _ := UnescapeEntity(cmd, str);
      ReadBack(cmd, was, EntityDecode(str.value).out);
      return Some(cmd[..len - 1]);
    }
    if str.None? { return None; }
    EntityNotFoundSame(str.value);
    return Some(str.value);
  }

  /** apr_escape.c:1054-1071. */
  method PEscapeHex(src: Option<Bytes>, colon: bool) returns (r: Option<string>)
    ensures r == if src.None? then None else Some(HexEncode(src.value, colon, true))
  {
    var status, len := EscapeHex(null, src, colon);
    if status == SUCCESS {
      var cmd := new char[len];
      ghost var was := cmd[..];
      var _, _ := EscapeHex(cmd, src, colon);
      ReadBack(cmd, was, HexEncode(src.value, colon, true));
      return Some(cmd[..len - 1]);
    }
    return None;
  }

  /** What a byte holds that nobody has stored to; no half byte is like that. */
  const MARK := '\U{01}'

  /** apr_escape.c:1165-1183. The buffer it allocates has the reported length; the last element of
      cmd is the byte behind that buffer. Is it stored to? It is if and only if the string has an odd
      number of digits. */
  method PUnescapeHex(str: Option<CString>, colon: bool) returns (r: Option<string>, beyond: bool)
    ensures r == if str.None? then None else HexDecode(str.value, colon, None)
    ensures beyond <==> r.Some? && HexDigits(str.value) % 2 == 1
  {
    var status, size := UnescapeHex(null, str, -1, colon);
    if status == SUCCESS {
      HexStoredExact(str.value, colon, None);
      ghost var stored := HexStored(str.value, colon, None);
      var cmd := new char[size + 1](_ => MARK);
      ghost var was := cmd[..];
      var _, len := UnescapeHex(cmd, str, -1, colon);
      assert if |stored| == size then cmd[size..] == was[size..] else cmd[..size + 1] == stored;
      assert cmd[size] == if |stored| == size then MARK else stored[size];
      return Some(cmd[..len]), cmd[size] != MARK;
    }
    return None, false;
  }
}

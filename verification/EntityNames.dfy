/** What the references that apr_unescape_entity understands stand for: decimal numbers, and the names of
    HTML 4 for the letters of ISO 8859-1 and for the characters that escape_entity escapes. */
module EntityNames {
  import opened Common
  import opened EscapeSpec

  // ----- numbers --------------------------------------------------------------------------------

  function DigitOf(n: nat): char
    requires n < 10
  {
    "0123456789"[n]
  }

  /** A number as people write it. */
  function Decimal(n: nat): string { if n < 10 then [DigitOf(n)] else Decimal(n / 10) + [DigitOf(n % 10)] }

  function Zeros(k: nat): string { if k == 0 then "" else Zeros(k - 1) + "0" }

  predicate AllDigits(s: string, j: nat) { forall i :: j <= i < |s| ==> IsDigit(s[i]) }

  /** Reading one digit more. */
  lemma {:induction false} ReadOneMore(s: string, j: nat, val: nat, n: nat)
    requires j <= |s| && AllDigits(s, j) && n < 10
    ensures var (m, end) := Digits(s, j, val); end == |s| && Digits(s + [DigitOf(n)], j, val) == (10 * m + n, |s| + 1)
    decreases |s| - j
  {
    var t := s + [DigitOf(n)];
    assert forall i :: 0 <= i < |s| ==> t[i] == s[i];
    assert t[|s|] as int == '0' as int + n;
    if j < |s| {
      ReadOneMore(s, j + 1, 10 * val + (s[j] as int - '0' as int), n);
    } else {
      assert Digits(t, j + 1, 10 * val + n) == (10 * val + n, j + 1);
    }
  }

  lemma {:induction false} ReadZeros(k: nat)
    ensures AllDigits("#" + Zeros(k), 1) && Digits("#" + Zeros(k), 1, 0) == (0, 1 + |Zeros(k)|)
  {
    if k > 0 {
      ReadZeros(k - 1);
      ReadOneMore("#" + Zeros(k - 1), 1, 0, 0);
      assert "#" + Zeros(k) == "#" + Zeros(k - 1) + [DigitOf(0)];
    }
  }

  lemma {:induction false} ReadDecimal(k: nat, n: nat)
    ensures var s := "#" + Zeros(k) + Decimal(n); AllDigits(s, 1) && Digits(s, 1, 0) == (n, |s|)
  {
    var s := "#" + Zeros(k) + Decimal(n);
    if n < 10 {
      ReadZeros(k);
      ReadOneMore("#" + Zeros(k), 1, 0, n);
    } else {
      ReadDecimal(k, n / 10);
      ReadOneMore("#" + Zeros(k) + Decimal(n / 10), 1, 0, n % 10);
      assert s == "#" + Zeros(k) + Decimal(n / 10) + [DigitOf(n % 10)];
    }
  }

  /** A tab, a line feed, or a printing character of ISO 8859-1 (section 24.1 of HTML 4) but for the
      no-break space. */
  predicate Printing(n: nat) { n == 9 || n == 10 || 32 <= n <= 126 || 161 <= n <= 255 }

  /** A decimal number stands for its character, if that is printing, and otherwise for nothing. */
  lemma NumberResolves(k: nat, n: nat)
    ensures Resolve("#" + Zeros(k) + Decimal(n)) == if Printing(n) then Char(n as char) else Dropped
  {
    ReadDecimal(k, n);
    assert ("#" + Zeros(k) + Decimal(n))[0] == '#';
  }

  lemma {:induction false} DigitsStop(s: string, j: nat, val: nat)
    requires j <= |s|
    ensures Digits(s, j, val).1 <= |s| && (Digits(s, j, val).1 == |s| <==> AllDigits(s, j))
    decreases |s| - j
  {
    if j < |s| && IsDigit(s[j]) { DigitsStop(s, j + 1, 10 * val + (s[j] as int - '0' as int)); }
  }

  /** With anything else among its digits, a number stands for nothing. */
  lemma MalformedIsDropped(s: string)
    requires s != "" && s[0] == '#' && !AllDigits(s, 1)
    ensures Resolve(s) == Dropped
  {
    DigitsStop(s, 1, 0);
  }

  lemma {:induction false} DecimalIsDigits(n: nat)
    ensures AllDigits(Decimal(n), 0)
  {
    if n >= 10 { DecimalIsDigits(n / 10); }
  }

  /** So unescape_entity reads "&#65;" as 'A', and leaves "&#5;" out. */
  lemma NumberDecodes(n: nat, rest: string)
    ensures var x := EntityDecode(rest);
            EntityDecode("&#" + Decimal(n) + ";" + rest) ==
              if Printing(n) then x.(out := [n as char] + x.out, found := true) else x.(dropped := true)
  {
    var name, ref := "#" + Decimal(n), "&#" + Decimal(n) + ";";
    NumberResolves(0, n);
    assert "#" + Zeros(0) + Decimal(n) == name;
    DecimalIsDigits(n);
    assert ref == "&" + name + ";" && ';' !in name;
    if Printing(n) { UnescapesReference(ref, name, n as char, rest); }
    else { LeavesOutReference(ref, name, rest); }
  }

  // ----- names ----------------------------------------------------------------------------------

  /** The names that HTML 4 (section 24.2.1) gives the letters from \U{c0} on, eight by eight. */
  function Letters(row: nat): seq<string> {
    match row
    case 0 => ["Agrave", "Aacute", "Acirc", "Atilde", "Auml", "Aring", "AElig", "Ccedil"]
    case 1 => ["Egrave", "Eacute", "Ecirc", "Euml", "Igrave", "Iacute", "Icirc", "Iuml"]
    case 2 => ["ETH", "Ntilde", "Ograve", "Oacute", "Ocirc", "Otilde", "Ouml", ""]
    case 3 => ["Oslash", "Ugrave", "Uacute", "Ucirc", "Uuml", "Yacute", "THORN", "szlig"]
    case 4 => ["agrave", "aacute", "acirc", "atilde", "auml", "aring", "aelig", "ccedil"]
    case 5 => ["egrave", "eacute", "ecirc", "euml", "igrave", "iacute", "icirc", "iuml"]
    case 6 => ["eth", "ntilde", "ograve", "oacute", "ocirc", "otilde", "ouml", ""]
    case _ => ["oslash", "ugrave", "uacute", "ucirc", "uuml", "yacute", "thorn", "yuml"]
  }

  /** The name of a character that has one; the empty string for the others. */
  function NameOf(c: char): string {
    if c == '<' then "lt" else if c == '>' then "gt" else if c == '&' then "amp" else if c == '"' then "quot"
    else if 192 <= c as int < 256 then Letters((c as int - 192) / 8)[c as int % 8]
    else ""
  }
  /** A pair of a table says what the list above says. */
  predicate Fits(p: (string, char), len: nat) { |p.0| == len && NameOf(p.1) == p.0 }

  lemma TwoFit()
    ensures forall i :: 0 <= i < 2 ==> Fits(Two()[i], 2)
  {
  }

  lemma ThreeFit()
    ensures forall i :: 0 <= i < 3 ==> Fits(Three()[i], 3)
  {
  }

  lemma FourFitA()
    ensures forall i :: 0 <= i < 6 ==> Fits(Four()[i], 4)
  {
  }

  lemma FourFitB()
    ensures forall i :: 6 <= i < 12 ==> Fits(Four()[i], 4)
  {
  }

  lemma FiveFitA()
    ensures forall i :: 0 <= i < 6 ==> Fits(Five()[i], 5)
  {
  }

  lemma FiveFitB()
    ensures forall i :: 6 <= i < 12 ==> Fits(Five()[i], 5)
  {
  }

  lemma FiveFitC()
    ensures forall i :: 12 <= i < 17 ==> Fits(Five()[i], 5)
  {
  }

  lemma SixFitA()
    ensures forall i :: 0 <= i < 8 ==> Fits(Six()[i], 6)
  {
  }

  lemma SixFitB()
    ensures forall i :: 8 <= i < 16 ==> Fits(Six()[i], 6)
  {
  }

  lemma SixFitC()
    ensures forall i :: 16 <= i < 24 ==> Fits(Six()[i], 6)
  {
  }

  lemma SixFitD()
    ensures forall i :: 24 <= i < 32 ==> Fits(Six()[i], 6)
  {
  }

  lemma AllFit(len: nat)
    ensures forall p :: p in Entities(len) ==> Fits(p, len)
  {
    hide Fits, NameOf;
    TwoFit();
    ThreeFit();
    FourFitA();
    FourFitB();
    FiveFitA();
    FiveFitB();
    FiveFitC();
    SixFitA();
    SixFitB();
    SixFitC();
    SixFitD();
  }

  predicate Listed(c: char) { (NameOf(c), c) in Entities(|NameOf(c)|) }

  lemma TwoListed(c: char)
    requires |NameOf(c)| == 2
    ensures (NameOf(c), c) in Two()
  {
  }

  lemma ThreeListed(c: char)
    requires |NameOf(c)| == 3
    ensures (NameOf(c), c) in Three()
  {
  }

  lemma FourListedA(c: char)
    requires |NameOf(c)| == 4 && c as int < 224
    ensures (NameOf(c), c) in Four()
  {
  }

  lemma FourListedB(c: char)
    requires |NameOf(c)| == 4 && c as int >= 224
    ensures (NameOf(c), c) in Four()
  {
  }

  lemma FiveListedA(c: char)
    requires |NameOf(c)| == 5 && c as int < 224
    ensures (NameOf(c), c) in Five()
  {
  }

  lemma FiveListedB(c: char)
    requires |NameOf(c)| == 5 && c as int >= 224
    ensures (NameOf(c), c) in Five()
  {
  }

  lemma SixListedA(c: char)
    requires |NameOf(c)| == 6 && c as int / 8 == 24
    ensures (NameOf(c), c) in Six()
  {
  }

  lemma SixListedB(c: char)
    requires |NameOf(c)| == 6 && c as int / 8 == 25
    ensures (NameOf(c), c) in Six()
  {
  }

  lemma SixListedC(c: char)
    requires |NameOf(c)| == 6 && c as int / 8 == 26
    ensures (NameOf(c), c) in Six()
  {
  }

  lemma SixListedD(c: char)
    requires |NameOf(c)| == 6 && c as int / 8 == 27
    ensures (NameOf(c), c) in Six()
  {
  }

  lemma SixListedE(c: char)
    requires |NameOf(c)| == 6 && c as int / 8 == 28
    ensures (NameOf(c), c) in Six()
  {
  }

  lemma SixListedF(c: char)
    requires |NameOf(c)| == 6 && c as int / 8 == 29
    ensures (NameOf(c), c) in Six()
  {
  }

  lemma SixListedG(c: char)
    requires |NameOf(c)| == 6 && c as int / 8 == 30
    ensures (NameOf(c), c) in Six()
  {
  }

  lemma SixListedH(c: char)
    requires |NameOf(c)| == 6 && c as int / 8 == 31
    ensures (NameOf(c), c) in Six()
  {
  }

  lemma NameLengths(c: char)
    ensures |NameOf(c)| in {0, 2, 3, 4, 5, 6}
    ensures |NameOf(c)| == 6 ==> 24 <= c as int / 8 < 32
  {
  }

  lemma SixListed(c: char)
    requires |NameOf(c)| == 6
    ensures (NameOf(c), c) in Six()
  {
    NameLengths(c);
    hide NameOf, Six;
    match c as int / 8
    case 24 => SixListedA(c);
    case 25 => SixListedB(c);
    case 26 => SixListedC(c);
    case 27 => SixListedD(c);
    case 28 => SixListedE(c);
    case 29 => SixListedF(c);
    case 30 => SixListedG(c);
    case _ => SixListedH(c);
  }

  lemma AllListed(c: char)
    requires NameOf(c) != ""
    ensures (NameOf(c), c) in Entities(|NameOf(c)|)
  {
    NameLengths(c);
    hide NameOf, Two, Three, Four, Five, Six;
    match |NameOf(c)|
    case 2 => TwoListed(c);
    case 3 => ThreeListed(c);
    case 4 => if c as int < 224 { FourListedA(c); } else { FourListedB(c); }
    case 5 => if c as int < 224 { FiveListedA(c); } else { FiveListedB(c); }
    case _ => SixListed(c);
  }

  predicate NamesApart(t: seq<(string, char)>, i: int, j: int) { 0 <= i < j < |t| ==> t[i].0 != t[j].0 }

  lemma SixApart()
    ensures forall i, j :: NamesApart(Six(), i, j)
  {
  }

  lemma AllApart(len: nat)
    ensures forall i, j :: NamesApart(Entities(len), i, j)
  {
    if len == 6 { SixApart(); }
  }

  lemma {:induction false} LookupFinds(t: seq<(string, char)>, name: string)
    ensures Lookup(t, name).Some? ==> (name, Lookup(t, name).value) in t
    ensures Lookup(t, name).None? ==> forall p :: p in t ==> p.0 != name
  {
    if t != [] {
      assert t == [t[0]] + t[1..];
      LookupFinds(t[1..], name);
    }
  }

  lemma Only(t: seq<(string, char)>, name: string, c: char, d: char)
    requires (forall i, j :: NamesApart(t, i, j)) && (name, c) in t && (name, d) in t
    ensures c == d
  {
    var i :| 0 <= i < |t| && t[i] == (name, c);
    var j :| 0 <= j < |t| && t[j] == (name, d);
    assert NamesApart(t, i, j) && NamesApart(t, j, i);
  }

  /** A reference by name stands for c if and only if that is the name of c. */
  lemma NameResolves(name: string, c: char)
    requires name == "" || name[0] != '#'
    ensures Resolve(name) == Char(c) <==> name != "" && NameOf(c) == name
    ensures !Resolve(name).Dropped?
  {
    var t := Entities(|name|);
    LookupFinds(t, name);
    AllFit(|name|);
    AllApart(|name|);
    if name != "" && NameOf(c) == name {
      AllListed(c);
      Only(t, name, c, Lookup(t, name).value);
    }
  }
}

// The text of HTTP/1.1 heads, over bytes: tokens, whitespace, field names and
// decimal lengths (section 5 of RFC 9112; crates/locho-web/src/http.rs).

module HttpText {
  import opened Bytes

  const MAX_HEAD: nat := 64 * 1024
  const MAX_FIELDS: nat := 100

  const SP: Byte := 32
  const TAB: Byte := 9
  const COLON: Byte := 58
  const COMMA: Byte := 44

  datatype Field = Field(name: Bytes, value: Bytes)

  function Ascii(s: string): (b: Bytes)
    requires forall i :: 0 <= i < |s| ==> s[i] < 128 as char
    ensures |b| == |s|
    ensures forall i :: 0 <= i < |s| ==> b[i] == s[i] as int
  {
    seq(|s|, i requires 0 <= i < |s| => s[i] as int)
  }

  function LowerByte(b: Byte): Byte { if 65 <= b <= 90 then b + 32 else b }

  function Lower(s: Bytes): (r: Bytes)
    ensures |r| == |s|
  {
    seq(|s|, i requires 0 <= i < |s| => LowerByte(s[i]))
  }

  // Case-insensitive comparison with a lower-case name.
  predicate Is(name: Bytes, lower: string) {
    |name| == |lower| && forall i :: 0 <= i < |name| ==> LowerByte(name[i]) as int == lower[i] as int
  }

  predicate TokenByte(b: Byte) {
    || 48 <= b <= 57 || 65 <= b <= 90 || 97 <= b <= 122
    || b == 33 || 35 <= b <= 39 || b == 42 || b == 43 || b == 45 || b == 46
    || 94 <= b <= 96 || b == 124 || b == 126
  }

  predicate IsToken(s: Bytes) {
    s != [] && forall i :: 0 <= i < |s| ==> TokenByte(s[i])
  }

  // Visible ASCII, spaces and tabs.
  predicate Printable(s: Bytes) {
    forall i :: 0 <= i < |s| ==> s[i] == TAB || 32 <= s[i] < 127
  }

  predicate Blank(b: Byte) { b == SP || b == TAB }

  function TrimLeft(s: Bytes): Bytes {
    if s != [] && Blank(s[0]) then TrimLeft(s[1..]) else s
  }

  function TrimRight(s: Bytes): Bytes {
    if s != [] && Blank(s[|s|-1]) then TrimRight(s[..|s|-1]) else s
  }

  // A field value without the optional whitespace around it.
  function Trim(s: Bytes): Bytes { TrimRight(TrimLeft(s)) }

  // No whitespace at either end.
  predicate Tight(s: Bytes) {
    s == [] || (!Blank(s[0]) && !Blank(s[|s|-1]))
  }

  lemma {:induction false} TrimLeftShort(s: Bytes)
    ensures |TrimLeft(s)| <= |s|
    ensures TrimLeft(s) == s <==> s == [] || !Blank(s[0])
    ensures TrimLeft(s) != s ==> |TrimLeft(s)| < |s|
    ensures TrimLeft(s) != [] ==> TrimLeft(s)[|TrimLeft(s)|-1] == s[|s|-1]
  {
    if s != [] && Blank(s[0]) {
      TrimLeftShort(s[1..]);
    }
  }

  lemma {:induction false} TrimRightShort(s: Bytes)
    ensures |TrimRight(s)| <= |s|
    ensures TrimRight(s) == s <==> s == [] || !Blank(s[|s|-1])
    ensures TrimRight(s) != s ==> |TrimRight(s)| < |s|
  {
    if s != [] && Blank(s[|s|-1]) {
      TrimRightShort(s[..|s|-1]);
    }
  }

  lemma TrimIff(s: Bytes)
    ensures Trim(s) == s <==> Tight(s)
  {
    TrimLeftShort(s);
    TrimRightShort(TrimLeft(s));
    TrimRightShort(s);
  }

  // The space `encode` prints before a value is part of what a reader trims.
  lemma TrimSpace(s: Bytes)
    ensures Trim([SP] + s) == Trim(s)
  {
    assert ([SP] + s)[1..] == s;
  }

  // ----- decimal lengths -----

  predicate IsDigits(s: Bytes) {
    s != [] && forall i :: 0 <= i < |s| ==> 48 <= s[i] <= 57
  }

  function DecValue(s: Bytes): nat
    requires forall i :: 0 <= i < |s| ==> 48 <= s[i] <= 57
  {
    if s == [] then 0 else 10 * DecValue(s[..|s|-1]) + (s[|s|-1] - 48)
  }

  function DecText(n: nat): (s: Bytes)
    ensures IsDigits(s) && DecValue(s) == n
  {
    if n < 10 then [48 + n]
    else
      var head := DecText(n / 10);
      var s := head + [48 + n % 10];
      assert s[..|s|-1] == head;
      s
  }

  // Fields that concern one connection only.
  predicate Hop(name: Bytes) {
    || Is(name, "connection") || Is(name, "keep-alive") || Is(name, "proxy-authenticate")
    || Is(name, "proxy-authorization") || Is(name, "proxy-connection") || Is(name, "te")
    || Is(name, "trailer") || Is(name, "transfer-encoding") || Is(name, "upgrade")
  }

  // ----- what these mean, byte by byte -----

  // ASCII case-insensitive equality with a lower-case name.
  lemma IsIff(name: Bytes, lower: string)
    requires forall i :: 0 <= i < |lower| ==> lower[i] < 128 as char && !('A' <= lower[i] <= 'Z')
    ensures Is(name, lower) <==>
              |name| == |lower| && forall i :: 0 <= i < |name| ==>
                || name[i] == lower[i] as int
                || ('a' <= lower[i] <= 'z' && name[i] == lower[i] as int - ('a' as int - 'A' as int))
    ensures Is(name, lower) <==> Lower(name) == Ascii(lower)
  {
    if Is(name, lower) {
      assert Lower(name) == Ascii(lower);
    }
    if Lower(name) == Ascii(lower) {
      assert forall i :: 0 <= i < |name| ==> LowerByte(name[i]) == Lower(name)[i] == Ascii(lower)[i];
    }
  }

  // The fields of one connection are these nine.
  lemma HopIff(name: Bytes)
    ensures Hop(name) <==>
              Lower(name) in [Ascii("connection"), Ascii("keep-alive"), Ascii("proxy-authenticate"),
                              Ascii("proxy-authorization"), Ascii("proxy-connection"), Ascii("te"),
                              Ascii("trailer"), Ascii("transfer-encoding"), Ascii("upgrade")]
  {
    hide Is, Lower, Ascii;
    IsIff(name, "connection");
    IsIff(name, "keep-alive");
    IsIff(name, "proxy-authenticate");
    IsIff(name, "proxy-authorization");
    IsIff(name, "proxy-connection");
    IsIff(name, "te");
    IsIff(name, "trailer");
    IsIff(name, "transfer-encoding");
    IsIff(name, "upgrade");
  }

  const MARKS: string := "!#$%&'*+-.^_`|~"

  // A token byte is a letter, a digit or one of the marks of section 5.6.2 of RFC 9110.
  lemma TokenByteIff(b: Byte)
    ensures TokenByte(b) <==>
              || '0' as int <= b <= '9' as int || 'A' as int <= b <= 'Z' as int || 'a' as int <= b <= 'z' as int
              || exists i :: 0 <= i < |MARKS| && MARKS[i] as int == b
  {
    if TokenByte(b) && !(48 <= b <= 57 || 65 <= b <= 90 || 97 <= b <= 122) {
      var i := if b == 33 then 0 else if b <= 39 then b - 34 else if b == 42 then 6 else if b == 43 then 7
               else if b <= 46 then b - 37 else if b <= 96 then b - 84 else if b == 124 then 13 else 14;
      assert MARKS[i] as int == b;
    }
  }

  predicate AllBlank(s: Bytes) {
    forall i :: 0 <= i < |s| ==> s[i] == SP || s[i] == TAB
  }

  // Trimming takes the spaces and tabs around a text, and nothing else.
  lemma TrimTakesBlanks(before: Bytes, core: Bytes, after: Bytes)
    requires AllBlank(before) && AllBlank(after) && Tight(core)
    ensures Trim(before + core + after) == core
  {
    LeftBlanks(before, core + after);
    assert before + core + after == before + (core + after);
    if core == [] {
      assert core + after == after + [];
      LeftBlanks(after, []);
    } else {
      assert TrimLeft(core + after) == core + after;
      RightBlanks(core, after);
    }
  }

  lemma {:induction false} LeftBlanks(before: Bytes, s: Bytes)
    requires AllBlank(before)
    ensures TrimLeft(before + s) == TrimLeft(s)
  {
    if before == [] {
      assert before + s == s;
    } else {
      LeftBlanks(before[1..], s);
      assert (before + s)[1..] == before[1..] + s;
    }
  }

  lemma {:induction false} RightBlanks(s: Bytes, after: Bytes)
    requires AllBlank(after) && s != [] && Tight(s)
    ensures TrimRight(s + after) == s
  {
    if after == [] {
      assert s + after == s;
    } else {
      var n := |after| - 1;
      RightBlanks(s, after[..n]);
      assert (s + after)[..|s + after| - 1] == s + after[..n];
    }
  }

  const DECIMAL: string := "0123456789"

  function Positional(ds: seq<nat>): nat {
    if ds == [] then 0 else 10 * Positional(ds[..|ds|-1]) + ds[|ds|-1]
  }

  function Decimal(ds: seq<nat>): Bytes
    requires forall i :: 0 <= i < |ds| ==> ds[i] < 10
  {
    seq(|ds|, i requires 0 <= i < |ds| => DECIMAL[ds[i]] as int)
  }

  // Decimal digits are worth their places in the table.
  lemma {:induction false} DecimalValue(ds: seq<nat>)
    requires ds != [] && forall i :: 0 <= i < |ds| ==> ds[i] < 10
    ensures IsDigits(Decimal(ds)) && DecValue(Decimal(ds)) == Positional(ds)
  {
    var n := |ds| - 1;
    assert Decimal(ds)[..n] == Decimal(ds[..n]);
    if n > 0 {
      DecimalValue(ds[..n]);
    }
  }
}

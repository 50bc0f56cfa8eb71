/** The text functions the application relies on: whitespace trimming, splitting into fields,
    statement normalization, and the identifiers printed with a minimum width of six digits.
    Text is a sequence of Unicode code points.
  */
module Text {

  // ---------- Whitespace ----------

  predicate IsSpace(c: char) {
    || '\t' <= c <= '\r'
    || c == ' '
    || c == '\U{0085}'
    || c == '\U{00A0}'
    || c == '\U{1680}'
    || '\U{2000}' <= c <= '\U{200A}'
    || c == '\U{2028}'
    || c == '\U{2029}'
    || c == '\U{202F}'
    || c == '\U{205F}'
    || c == '\U{3000}'
  }

  /** The code points with the Unicode property White_Space. */
  const WHITE_SPACE := {
    0x9, 0xA, 0xB, 0xC, 0xD, 0x20, 0x85, 0xA0, 0x1680, 0x2000, 0x2001, 0x2002, 0x2003, 0x2004, 0x2005, 0x2006,
    0x2007, 0x2008, 0x2009, 0x200A, 0x2028, 0x2029, 0x202F, 0x205F, 0x3000
  }

  lemma IsSpaceIff(c: char)
    ensures IsSpace(c) <==> c as int in WHITE_SPACE
  {
  }

  function TrimLeft(s: string): string {
    if s != "" && IsSpace(s[0]) then TrimLeft(s[1..]) else s
  }

  function TrimRight(s: string): string {
    if s != "" && IsSpace(s[|s| - 1]) then TrimRight(s[..|s| - 1]) else s
  }

  function TrimSpace(s: string): string {
    TrimRight(TrimLeft(s))
  }

  /** Text without surrounding whitespace. */
  predicate Trimmed(s: string) {
    s == "" || (!IsSpace(s[0]) && !IsSpace(s[|s| - 1]))
  }

  lemma {:induction false} TrimRightEnds(s: string)
    ensures TrimRight(s) <= s
    ensures TrimRight(s) == "" || !IsSpace(TrimRight(s)[|TrimRight(s)| - 1])
  {
    if s != "" && IsSpace(s[|s| - 1]) {
      TrimRightEnds(s[..|s| - 1]);
    }
  }

  lemma {:induction false} TrimLeftStarts(s: string)
    ensures TrimLeft(s) == "" || !IsSpace(TrimLeft(s)[0])
  {
    if s != "" && IsSpace(s[0]) {
      TrimLeftStarts(s[1..]);
    }
  }

  /** Trimming returns text without surrounding whitespace, and leaves exactly such text alone. */
  lemma TrimSpaceNormalizes(s: string)
    ensures Trimmed(TrimSpace(s))
    ensures TrimSpace(s) == s <==> Trimmed(s)
  {
    TrimLeftStarts(s);
    TrimRightEnds(TrimLeft(s));
  }

  predicate Spaces(s: string) {
    forall i :: 0 <= i < |s| ==> IsSpace(s[i])
  }

  /** Trimming takes the surrounding whitespace away and keeps everything between. */
  lemma {:induction false} TrimLeftSplits(s: string) returns (a: string)
    ensures Spaces(a) && s == a + TrimLeft(s)
  {
    if s != "" && IsSpace(s[0]) {
      var rest := TrimLeftSplits(s[1..]);
      a := [s[0]] + rest;
    } else {
      a := "";
    }
  }

  lemma {:induction false} TrimRightSplits(s: string) returns (b: string)
    ensures Spaces(b) && s == TrimRight(s) + b
  {
    if s != "" && IsSpace(s[|s| - 1]) {
      var rest := TrimRightSplits(s[..|s| - 1]);
      b := rest + [s[|s| - 1]];
    } else {
      b := "";
    }
  }

  lemma {:induction false} TrimLeftOf(a: string, t: string)
    requires Spaces(a)
    ensures TrimLeft(a + t) == TrimLeft(t)
  {
    if a == "" {
      assert a + t == t;
    } else {
      TrimLeftOf(a[1..], t);
      assert (a + t)[1..] == a[1..] + t;
    }
  }

  lemma {:induction false} TrimRightOf(t: string, b: string)
    requires Spaces(b)
    ensures TrimRight(t + b) == TrimRight(t)
  {
    if b == "" {
      assert t + b == t;
    } else {
      TrimRightOf(t, b[..|b| - 1]);
      assert (t + b)[..|t + b| - 1] == t + b[..|b| - 1];
    }
  }

  lemma TrimSpaceOf(a: string, t: string, b: string)
    requires Spaces(a) && Spaces(b) && Trimmed(t)
    ensures TrimSpace(a + t + b) == t
  {
    assert a + t + b == a + (t + b);
    TrimLeftOf(a, t + b);
    if t == "" {
      assert t + b == b + "";
      TrimLeftOf(b, "");
    } else {
      assert TrimLeft(t + b) == t + b;
      TrimRightOf(t, b);
    }
  }

  /** Exactly the trimmed text with whitespace around it is trimmed to it. */
  lemma TrimSpaceIff(s: string, t: string)
    ensures TrimSpace(s) == t <==> Trimmed(t) && exists a, b :: Spaces(a) && Spaces(b) && s == a + t + b
  {
    if TrimSpace(s) == t {
      TrimSpaceNormalizes(s);
      var a := TrimLeftSplits(s);
      var b := TrimRightSplits(TrimLeft(s));
      assert s == a + t + b;
    }
    if a, b :| Spaces(a) && Spaces(b) && s == a + t + b && Trimmed(t) {
      TrimSpaceOf(a, t, b);
    }
  }

  /** Nothing is left of a text exactly when it is all whitespace. */
  lemma BlankIff(s: string)
    ensures TrimSpace(s) == "" <==> Spaces(s)
  {
    TrimSpaceIff(s, "");
    if Spaces(s) {
      assert Spaces("") && s == s + "" + "";
    }
  }

  lemma NonBlankIsNonEmpty(s: string)
    requires TrimSpace(s) != ""
    ensures s != ""
  {
  }

  // ---------- Statement normalization ----------

  /** A non-empty run of text without whitespace. */
  predicate Word(w: string) {
    w != "" && forall i :: 0 <= i < |w| ==> !IsSpace(w[i])
  }

  function WordLength(s: string): (n: nat)
    ensures n <= |s|
    ensures forall i :: 0 <= i < n ==> !IsSpace(s[i])
    ensures n < |s| ==> IsSpace(s[n])
  {
    if s == "" || IsSpace(s[0]) then 0 else 1 + WordLength(s[1..])
  }

  function Fields(s: string): seq<string> {
    if s == "" then []
    else if IsSpace(s[0]) then Fields(s[1..])
    else
      var n := WordLength(s);
      [s[..n]] + Fields(s[n..])
  }

  function Join(words: seq<string>): string {
    if words == [] then ""
    else if |words| == 1 then words[0]
    else words[0] + " " + Join(words[1..])
  }

  function NormalizeSQL(statement: string): string {
    Join(Fields(statement))
  }

  function Concat(words: seq<string>): string {
    if words == [] then "" else words[0] + Concat(words[1..])
  }

  function WithoutSpaces(s: string): string {
    if s == "" then ""
    else if IsSpace(s[0]) then WithoutSpaces(s[1..])
    else [s[0]] + WithoutSpaces(s[1..])
  }

  ghost predicate Words(words: seq<string>) {
    forall i :: 0 <= i < |words| ==> Word(words[i])
  }

  lemma {:induction false} WithoutSpacesPrefix(s: string, n: nat)
    requires n <= |s| && forall i :: 0 <= i < n ==> !IsSpace(s[i])
    ensures WithoutSpaces(s) == s[..n] + WithoutSpaces(s[n..])
  {
    if n > 0 {
      WithoutSpacesPrefix(s[1..], n - 1);
      assert s[1..][n - 1..] == s[n..];
      assert s[..n] == [s[0]] + s[1..][..n - 1];
    } else {
      assert s[n..] == s;
    }
  }

  /** Splitting loses nothing but whitespace, and every field is a word. */
  lemma {:induction false} FieldsKeepTheWords(s: string)
    ensures Words(Fields(s))
    ensures Concat(Fields(s)) == WithoutSpaces(s)
    decreases |s|
  {
    if s == "" {
    } else if IsSpace(s[0]) {
      FieldsKeepTheWords(s[1..]);
    } else {
      var n := WordLength(s);
      FieldsKeepTheWords(s[n..]);
      WithoutSpacesPrefix(s, n);
      assert Fields(s)[1..] == Fields(s[n..]);
    }
  }

  lemma {:induction false} WordLengthOf(w: string, rest: string)
    requires forall i :: 0 <= i < |w| ==> !IsSpace(w[i])
    requires rest == "" || IsSpace(rest[0])
    ensures WordLength(w + rest) == |w|
  {
    if w == "" {
      assert w + rest == rest;
    } else {
      WordLengthOf(w[1..], rest);
      assert (w + rest)[1..] == w[1..] + rest;
    }
  }

  lemma FirstField(w: string, rest: string)
    requires Word(w)
    ensures Fields(w + " " + rest) == [w] + Fields(rest)
  {
    var s := w + " " + rest;
    assert s == w + (" " + rest);
    WordLengthOf(w, " " + rest);
    assert s[..|w|] == w && s[|w|..] == " " + rest;
    assert (" " + rest)[1..] == rest;
  }

  /** Splitting joined words gives the words back. */
  lemma {:induction false} FieldsOfJoin(words: seq<string>)
    requires Words(words)
    ensures Fields(Join(words)) == words
  {
    if words == [] {
    } else if |words| == 1 {
      WordLengthOf(words[0], "");
      assert words[0] + "" == words[0];
      assert words[0][..|words[0]|] == words[0];
    } else {
      FieldsOfJoin(words[1..]);
      FirstField(words[0], Join(words[1..]));
    }
  }

  // ---------- Layout ----------

  /** Words with whitespace around and between them. */
  function Layout(gaps: seq<string>, words: seq<string>): string
    requires |gaps| == |words| + 1
  {
    if words == [] then gaps[0] else gaps[0] + words[0] + Layout(gaps[1..], words[1..])
  }

  ghost predicate Separates(gaps: seq<string>, words: seq<string>) {
    && |gaps| == |words| + 1
    && (forall i :: 0 <= i < |gaps| ==> Spaces(gaps[i]))
    && (forall i :: 0 < i < |words| ==> gaps[i] != "")
  }

  lemma {:induction false} FieldsSkipSpaces(gap: string, rest: string)
    requires Spaces(gap)
    ensures Fields(gap + rest) == Fields(rest)
  {
    if gap == "" {
      assert gap + rest == rest;
    } else {
      FieldsSkipSpaces(gap[1..], rest);
      assert (gap + rest)[1..] == gap[1..] + rest;
    }
  }

  lemma FieldsOfWord(w: string, rest: string)
    requires Word(w) && (rest == "" || IsSpace(rest[0]))
    ensures Fields(w + rest) == [w] + Fields(rest)
  {
    WordLengthOf(w, rest);
    assert (w + rest)[..|w|] == w && (w + rest)[|w|..] == rest;
  }

  lemma {:induction false} FieldsOfLayout(gaps: seq<string>, words: seq<string>)
    requires Words(words) && Separates(gaps, words)
    ensures Fields(Layout(gaps, words)) == words
  {
    if words == [] {
      FieldsSkipSpaces(gaps[0], "");
      assert gaps[0] + "" == gaps[0];
    } else {
      var rest := Layout(gaps[1..], words[1..]);
      assert rest == "" || IsSpace(rest[0]) by {
        assert gaps[1] != "" ==> rest[0] == gaps[1][0];
      }
      FieldsOfLayout(gaps[1..], words[1..]);
      FieldsOfWord(words[0], rest);
      FieldsSkipSpaces(gaps[0], words[0] + rest);
      assert gaps[0] + words[0] + rest == gaps[0] + (words[0] + rest);
    }
  }

  lemma WiderGap(c: char, gaps: seq<string>, words: seq<string>)
    requires |gaps| == |words| + 1
    ensures Layout([[c] + gaps[0]] + gaps[1..], words) == [c] + Layout(gaps, words)
    ensures IsSpace(c) && Separates(gaps, words) ==> Separates([[c] + gaps[0]] + gaps[1..], words)
  {
    var wider := [[c] + gaps[0]] + gaps[1..];
    assert wider[1..] == gaps[1..];
    if IsSpace(c) && Separates(gaps, words) {
      forall i | 0 <= i < |wider| ensures Spaces(wider[i]) && (0 < i ==> wider[i] == gaps[i]) {
        assert Spaces(gaps[i]);
      }
    }
  }

  lemma OneMoreWord(w: string, gaps: seq<string>, words: seq<string>)
    requires |gaps| == |words| + 1
    ensures Layout([""] + gaps, [w] + words) == w + Layout(gaps, words)
    ensures Separates(gaps, words) && (words != [] ==> gaps[0] != "") ==> Separates([""] + gaps, [w] + words)
  {
    assert ([""] + gaps)[1..] == gaps && ([w] + words)[1..] == words;
    assert "" + w == w;
  }

  lemma {:induction false} LayoutOf(s: string) returns (gaps: seq<string>)
    ensures |gaps| == |Fields(s)| + 1 && Separates(gaps, Fields(s)) && Layout(gaps, Fields(s)) == s
    ensures s != "" && IsSpace(s[0]) ==> gaps[0] != ""
    decreases |s|
  {
    hide Layout, Separates;
    if s == "" {
      gaps := [""];
      NoWords();
    } else if IsSpace(s[0]) {
      var rest := LayoutOf(s[1..]);
      gaps := [[s[0]] + rest[0]] + rest[1..];
      WiderGap(s[0], rest, Fields(s));
    } else {
      var n := WordLength(s);
      var rest := LayoutOf(s[n..]);
      gaps := [""] + rest;
      OneMoreWord(s[..n], rest, Fields(s[n..]));
      assert Fields(s) == [s[..n]] + Fields(s[n..]);
    }
  }

  lemma NoWords()
    ensures Separates([""], []) && Layout([""], []) == ""
  {
  }

  /** The fields of a statement are the words of which it is a layout, whatever whitespace is used. */
  lemma FieldsIffLayout(s: string, words: seq<string>)
    ensures Fields(s) == words
       <==> Words(words) && exists gaps :: Separates(gaps, words) && s == Layout(gaps, words)
  {
    if Fields(s) == words {
      FieldsKeepTheWords(s);
      var gaps := LayoutOf(s);
    }
    if gaps :| Words(words) && Separates(gaps, words) && s == Layout(gaps, words) {
      FieldsOfLayout(gaps, words);
    }
  }

  /** A normalized statement has one space between its words and none around them. */
  lemma {:induction false} JoinIsLayout(words: seq<string>, gaps: seq<string>)
    requires |gaps| == |words| + 1
    requires forall i :: 0 <= i < |gaps| ==> gaps[i] == if 0 < i < |words| then " " else ""
    ensures Join(words) == Layout(gaps, words)
  {
    hide Layout;
    if words == [] {
      assert gaps == [""];
      NoWords();
    } else {
      var later := [""] + gaps[2..];
      JoinIsLayout(words[1..], later);
      if |words| >= 2 {
        WiderGap(' ', later, words[1..]);
        assert later[1..] == gaps[2..] && [' '] + later[0] == " " == gaps[1];
        assert [gaps[1]] + gaps[2..] == gaps[1..];
      } else {
        assert later == gaps[1..];
      }
      OneMoreWord(words[0], gaps[1..], words[1..]);
      assert [""] + gaps[1..] == gaps && [words[0]] + words[1..] == words;
      assert |words| == 1 ==> Join(words[1..]) == "" && words[0] + "" == words[0];
    }
  }

  lemma NormalizeIdempotent(statement: string)
    ensures NormalizeSQL(NormalizeSQL(statement)) == NormalizeSQL(statement)
  {
    FieldsKeepTheWords(statement);
    FieldsOfJoin(Fields(statement));
  }

  /** Two statements normalize equal exactly when they have the same fields. */
  lemma NormalizeEqualIffSameFields(a: string, b: string)
    ensures NormalizeSQL(a) == NormalizeSQL(b) <==> Fields(a) == Fields(b)
  {
    FieldsKeepTheWords(a);
    FieldsKeepTheWords(b);
    FieldsOfJoin(Fields(a));
    FieldsOfJoin(Fields(b));
  }

  // ---------- Decimal identifiers ----------

  function Digits(n: nat): (s: string)
    ensures s != ""
    ensures forall i :: 0 <= i < |s| ==> '0' <= s[i] <= '9'
  {
    if n < 10 then [(48 + n) as char] else Digits(n / 10) + [(48 + n % 10) as char]
  }

  function Zeros(k: nat): (s: string)
    ensures |s| == k && forall i :: 0 <= i < k ==> s[i] == '0'
  {
    if k == 0 then "" else "0" + Zeros(k - 1)
  }

  /** The text printed for a number with a minimum width of six. */
  function PadSix(n: nat): (s: string)
    ensures |s| >= 6
    ensures forall i :: 0 <= i < |s| ==> '0' <= s[i] <= '9'
  {
    var digits := Digits(n);
    if |digits| < 6 then Zeros(6 - |digits|) + digits else digits
  }

  /** The number a digit string denotes. */
  function Number(s: string): int {
    if s == "" then 0 else 10 * Number(s[..|s| - 1]) + (s[|s| - 1] as int - 48)
  }

  lemma {:induction false} NumberOfDigits(n: nat)
    ensures Number(Digits(n)) == n
  {
    if n >= 10 {
      NumberOfDigits(n / 10);
      assert Digits(n)[..|Digits(n)| - 1] == Digits(n / 10);
    }
  }

  lemma {:induction false} LeadingZerosKeepTheNumber(k: nat, s: string)
    ensures Number(Zeros(k) + s) == Number(s)
    decreases |s|, k
  {
    if s != "" {
      var t := Zeros(k) + s;
      assert t[..|t| - 1] == Zeros(k) + s[..|s| - 1];
      LeadingZerosKeepTheNumber(k, s[..|s| - 1]);
    } else if k > 0 {
      assert Zeros(k) + s == Zeros(k - 1) + "0" by {
        assert forall i :: 0 <= i < k ==> (Zeros(k) + s)[i] == '0';
      }
      assert (Zeros(k - 1) + "0")[..k - 1] == Zeros(k - 1) + s;
      LeadingZerosKeepTheNumber(k - 1, s);
    }
  }

  /** The printed identifier number determines the counter, however many digits it has. */
  lemma PadSixDenotes(n: nat)
    ensures Number(PadSix(n)) == n
  {
    NumberOfDigits(n);
    if |Digits(n)| < 6 {
      LeadingZerosKeepTheNumber(6 - |Digits(n)|, Digits(n));
    }
  }

  function Power10(k: nat): nat {
    if k == 0 then 1 else 10 * Power10(k - 1)
  }

  lemma {:induction false} DigitsLength(n: nat, k: nat)
    requires k >= 1 && n < Power10(k)
    ensures |Digits(n)| <= k
  {
    if n >= 10 {
      assert Power10(1) == 10;
      DigitsLength(n / 10, k - 1);
    }
  }

  // ---------- The printed text is determined ----------

  predicate AllDigits(s: string) {
    forall i :: 0 <= i < |s| ==> '0' <= s[i] <= '9'
  }

  /** Printed with a minimum width of six: the digits denote the number, and leading zeros only fill
      up to six of them. */
  predicate Printed(s: string, n: nat) {
    AllDigits(s) && Number(s) == n && |s| >= 6 && (|s| > 6 ==> s[0] != '0')
  }

  lemma {:induction false} DigitsStart(n: nat)
    requires n > 0
    ensures Digits(n)[0] != '0'
  {
    if n >= 10 {
      DigitsStart(n / 10);
    }
  }

  lemma {:induction false} NumberBounds(s: string)
    requires AllDigits(s)
    ensures 0 <= Number(s) < Power10(|s|)
    ensures s != "" && s[0] != '0' ==> Number(s) >= Power10(|s| - 1)
  {
    if s != "" {
      NumberBounds(s[..|s| - 1]);
    }
  }

  lemma {:induction false} SameNumberSameText(s: string, t: string)
    requires AllDigits(s) && AllDigits(t) && |s| == |t| && Number(s) == Number(t)
    ensures s == t
  {
    if s != "" {
      var n := |s| - 1;
      SameNumberSameText(s[..n], t[..n]);
      assert s == s[..n] + [s[n]] && t == t[..n] + [t[n]];
    }
  }

  lemma {:induction false} PowerMonotone(j: nat, k: nat)
    requires j <= k
    ensures Power10(j) <= Power10(k)
  {
    if j < k {
      PowerMonotone(j, k - 1);
    }
  }

  lemma LengthsAgree(s: string, t: string, n: nat)
    requires Printed(s, n) && Printed(t, n)
    ensures |s| <= |t|
  {
    NumberBounds(s);
    NumberBounds(t);
    if |s| > |t| {
      PowerMonotone(|t|, |s| - 1);
    }
  }

  /** The text printed for a counter is the only one of this kind. */
  lemma PadSixIff(n: nat, s: string)
    ensures s == PadSix(n) <==> Printed(s, n)
  {
    PadSixDenotes(n);
    if n > 0 {
      DigitsStart(n);
    }
    assert Printed(PadSix(n), n);
    if Printed(s, n) {
      LengthsAgree(s, PadSix(n), n);
      LengthsAgree(PadSix(n), s, n);
      SameNumberSameText(s, PadSix(n));
    }
  }

  function OrderID(n: nat): string {
    "order-" + PadSix(n)
  }

  function PaymentID(n: nat): string {
    "payment-" + PadSix(n)
  }

  /** Order IDs of different counters differ, at every magnitude, and so do payment IDs. */
  lemma OrderIDsInjective(m: nat, n: nat)
    ensures OrderID(m) == OrderID(n) <==> m == n
  {
    PadSixDenotes(m);
    PadSixDenotes(n);
    assert OrderID(m)[6..] == PadSix(m) && OrderID(n)[6..] == PadSix(n);
  }

  lemma PaymentIDsInjective(m: nat, n: nat)
    ensures PaymentID(m) == PaymentID(n) <==> m == n
  {
    PadSixDenotes(m);
    PadSixDenotes(n);
    assert PaymentID(m)[8..] == PadSix(m) && PaymentID(n)[8..] == PadSix(n);
  }

  /** An order ID is its prefix and the printed counter, and so is a payment ID. */
  lemma OrderIDIff(n: nat, s: string)
    ensures OrderID(n) == s <==> |s| >= 6 && s[..6] == "order-" && Printed(s[6..], n)
  {
    if |s| >= 6 {
      PadSixIff(n, s[6..]);
      assert s == s[..6] + s[6..];
    }
    assert OrderID(n)[..6] == "order-" && OrderID(n)[6..] == PadSix(n);
  }

  lemma PaymentIDIff(n: nat, s: string)
    ensures PaymentID(n) == s <==> |s| >= 8 && s[..8] == "payment-" && Printed(s[8..], n)
  {
    if |s| >= 8 {
      PadSixIff(n, s[8..]);
      assert s == s[..8] + s[8..];
    }
    assert PaymentID(n)[..8] == "payment-" && PaymentID(n)[8..] == PadSix(n);
  }

  lemma FirstIdentifiers()
    ensures OrderID(1) == "order-000001" && PaymentID(1) == "payment-000001"
  {
    FirstNumber();
    hide Number, OrderID, PaymentID;
    OrderIDIff(1, "order-000001");
    PaymentIDIff(1, "payment-000001");
    assert "order-000001"[..6] == "order-" && "order-000001"[6..] == "000001";
    assert "payment-000001"[..8] == "payment-" && "payment-000001"[8..] == "000001";
  }

  lemma FirstNumber()
    ensures Number("000001") == 1
  {
    NumberStep("", '1');
    LeadingZerosKeepTheNumber(5, "1");
    assert Zeros(5) + "1" == "000001" && "" + ['1'] == "1";
  }

  lemma NumberStep(s: string, c: char)
    ensures Number(s + [c]) == 10 * Number(s) + (c as int - 48)
  {
    assert (s + [c])[..|s|] == s;
  }

  lemma IdentifiersTrimmed(n: nat)
    ensures Trimmed(OrderID(n)) && Trimmed(PaymentID(n))
    ensures TrimSpace(OrderID(n)) == OrderID(n) != ""
    ensures TrimSpace(PaymentID(n)) == PaymentID(n) != ""
  {
    TrimSpaceNormalizes(OrderID(n));
    TrimSpaceNormalizes(PaymentID(n));
  }
}

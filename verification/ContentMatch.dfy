/**
 When two extracted documents are the same invoice: significant vendor words in common, the
 same date and amount, and no contradicting invoice number in the file names.
 */
module ContentMatch {
  import opened Wrappers

  /** ASCII whitespace, as str.split() sees it. */
  predicate IsSpace(c: char) {
    c == ' ' || '\t' <= c <= '\r'
  }

  function Lower(c: char): char {
    if 'A' <= c <= 'Z' then c - 'A' + 'a' else c
  }

  /** Lower case, with full stops and commas turned into spaces. */
  function Cleaned(s: string): string {
    seq(|s|, i requires 0 <= i < |s| => if s[i] == '.' || s[i] == ',' then ' ' else Lower(s[i]))
  }

  /** A maximal run of non-spaces. */
  predicate IsWord(s: string, i: int, j: int) {
    && 0 <= i < j <= |s|
    && (forall k :: i <= k < j ==> !IsSpace(s[k]))
    && (i == 0 || IsSpace(s[i - 1]))
    && (j == |s| || IsSpace(s[j]))
  }

  function Words(s: string): set<string> {
    set i, j | 0 <= i < j <= |s| && IsWord(s, i, j) :: s[i..j]
  }

  /** Words too generic to identify a vendor. */
  predicate IsNoise(w: string) {
    w in ["corp", "corp.", "inc", "inc.", "ltd", "ltd.", "llc", "co", "co.", "the", "a", "of"] || |w| <= 1
  }

  function VendorTokens(name: Option<string>): set<string> {
    if name.None? then {} else set w | w in Words(Cleaned(name.value)) && !IsNoise(w)
  }

  lemma WordOfWhole(a: string, b: string, i: int, j: int)
    requires IsWord(a + " " + b, i, j)
    ensures (a + " " + b)[i..j] in Words(a) + Words(b)
  {
    var s, n := a + " " + b, |a| + 1;
    assert IsSpace(s[|a|]);
    if j <= |a| {
      assert forall k :: 0 <= k < |a| ==> s[k] == a[k];
      assert IsWord(a, i, j) && a[i..j] == s[i..j];
    } else {
      assert forall k :: 0 <= k < |b| ==> b[k] == s[n + k];
      assert IsWord(b, i - n, j - n) && b[i - n..j - n] == s[i..j];
    }
  }

  lemma WordOfLeft(a: string, b: string, i: int, j: int)
    requires IsWord(a, i, j)
    ensures a[i..j] in Words(a + " " + b)
  {
    var s := a + " " + b;
    assert s[|a|] == ' ' && forall k :: 0 <= k < |a| ==> s[k] == a[k];
    assert IsWord(s, i, j) && s[i..j] == a[i..j];
  }

  lemma WordOfRight(a: string, b: string, i: int, j: int)
    requires IsWord(b, i, j)
    ensures b[i..j] in Words(a + " " + b)
  {
    var s, n := a + " " + b, |a| + 1;
    assert s[|a|] == ' ' && forall k :: n <= k < |s| ==> s[k] == b[k - n];
    assert IsWord(s, n + i, n + j) && s[n + i..n + j] == b[i..j];
  }

  lemma WordsSplitAtSpace(a: string, b: string)
    ensures Words(a + " " + b) == Words(a) + Words(b)
  {
    var s := a + " " + b;
    forall i, j | 0 <= i < j <= |s| && IsWord(s, i, j) ensures s[i..j] in Words(a) + Words(b) {
      WordOfWhole(a, b, i, j);
    }
    forall i, j | 0 <= i < j <= |a| && IsWord(a, i, j) ensures a[i..j] in Words(s) {
      WordOfLeft(a, b, i, j);
    }
    forall i, j | 0 <= i < j <= |b| && IsWord(b, i, j) ensures b[i..j] in Words(s) {
      WordOfRight(a, b, i, j);
    }
  }

  /** A legal suffix makes no difference: "Alex Food Service" and "Alex Food Service Corp." have the
      same significant words. */
  lemma SuffixIsIgnored(name: string, suffix: string)
    requires forall w :: w in Words(Cleaned(suffix)) ==> IsNoise(w)
    ensures VendorTokens(Some(name + " " + suffix)) == VendorTokens(Some(name))
  {
    assert Cleaned(name + " " + suffix) == Cleaned(name) + " " + Cleaned(suffix);
    WordsSplitAtSpace(Cleaned(name), Cleaned(suffix));
  }

  // ---------------------------------------------------------------------------------------
  // Invoice numbers in file names
  // ---------------------------------------------------------------------------------------

  predicate IsDigit(c: char) {
    '0' <= c <= '9'
  }

  /** The longest run of digits at the front. */
  function Digits(s: string): string {
    if s == "" || !IsDigit(s[0]) then "" else [s[0]] + Digits(s[1..])
  }

  function StripZeros(s: string): string {
    if s != "" && s[0] == '0' then StripZeros(s[1..]) else s
  }

  predicate StartsWithFolded(s: string, word: string) {
    |word| <= |s| && forall i :: 0 <= i < |word| ==> Lower(s[i]) == word[i]
  }

  /** At least four digits, after an optional underscore or hyphen. */
  function DigitsAfterSeparator(s: string): Option<string> {
    var rest := if s != "" && (s[0] == '_' || s[0] == '-') then s[1..] else s;
    if |Digits(rest)| >= 4 then Some(Digits(rest)) else None
  }

  /** A match of the invoice pattern at the front of a text. */
  function MatchHere(s: string): Option<string> {
    var short := if StartsWithFolded(s, "inv") then DigitsAfterSeparator(s[3..]) else None;
    if short.Some? then short
    else if StartsWithFolded(s, "invoice") then DigitsAfterSeparator(s[7..]) else None
  }

  /** The leftmost match, its leading zeros dropped; a number that is all zeros counts as none. */
  function InvoiceNumber(filename: string): Option<string> {
    if filename == "" then None
    else
      var m := MatchHere(filename);
      if m.Some? then if StripZeros(m.value) == "" then None else Some(StripZeros(m.value))
      else InvoiceNumber(filename[1..])
  }

  function Zeros(n: nat): string {
    if n == 0 then "" else "0" + Zeros(n - 1)
  }

  lemma {:induction false} DigitsStopAtTail(ds: string, tail: string)
    requires (forall i :: 0 <= i < |ds| ==> IsDigit(ds[i])) && (tail != "" ==> !IsDigit(tail[0]))
    ensures Digits(ds + tail) == ds
  {
    if ds == "" {
      assert ds + tail == tail;
    } else {
      DigitsStopAtTail(ds[1..], tail);
      assert (ds + tail)[1..] == ds[1..] + tail;
    }
  }

  lemma {:induction false} ZerosAreStripped(n: nat, ds: string)
    requires ds != "" && ds[0] != '0'
    ensures StripZeros(Zeros(n) + ds) == ds
    ensures |Zeros(n)| == n && forall i :: 0 <= i < n ==> Zeros(n)[i] == '0'
  {
    if n == 0 {
      assert Zeros(n) + ds == ds;
    } else {
      ZerosAreStripped(n - 1, ds);
      assert (Zeros(n) + ds)[1..] == Zeros(n - 1) + ds;
    }
  }

  lemma SeparatorIsOptional(sep: string, ds: string, tail: string)
    requires sep == "" || sep == "_" || sep == "-"
    requires |ds| >= 4 && (forall i :: 0 <= i < |ds| ==> IsDigit(ds[i])) && (tail != "" ==> !IsDigit(tail[0]))
    ensures DigitsAfterSeparator(sep + ds + tail) == Some(ds)
  {
    DigitsStopAtTail(ds, tail);
    var s := sep + ds + tail;
    if sep == "" {
      assert s == ds + tail && IsDigit(s[0]);
    } else {
      assert s[1..] == ds + tail;
    }
  }

  /** "INV-0072", "invoice_72..." and the like: any spelling of the word, an optional separator and at
      least four digits give the number without its leading zeros, whatever follows it. */
  lemma NumberIsRead(word: string, sep: string, zeros: nat, number: string, tail: string)
    requires (|word| == 3 && StartsWithFolded(word, "inv")) || (|word| == 7 && StartsWithFolded(word, "invoice"))
    requires (sep == "" || sep == "_" || sep == "-") && (tail != "" ==> !IsDigit(tail[0]))
    requires number != "" && number[0] != '0' && zeros + |number| >= 4
    requires forall i :: 0 <= i < |number| ==> IsDigit(number[i])
    ensures InvoiceNumber(word + (sep + (Zeros(zeros) + number) + tail)) == Some(number)
  {
    var ds := Zeros(zeros) + number;
    ZerosAreStripped(zeros, number);
    SeparatorIsOptional(sep, ds, tail);
    WordIsMatched(word, sep + ds + tail, ds);
    MatchGivesNumber(word + (sep + ds + tail), ds, number);
  }

  lemma MatchGivesNumber(filename: string, ds: string, number: string)
    requires MatchHere(filename) == Some(ds) && StripZeros(ds) == number && number != ""
    ensures InvoiceNumber(filename) == Some(number)
  {
  }

  lemma WordIsMatched(word: string, rest: string, ds: string)
    requires (|word| == 3 && StartsWithFolded(word, "inv")) || (|word| == 7 && StartsWithFolded(word, "invoice"))
    requires DigitsAfterSeparator(rest) == Some(ds)
    ensures MatchHere(word + rest) == Some(ds)
  {
    var s := word + rest;
    assert forall i :: 0 <= i < |word| ==> s[i] == word[i];
    assert s[|word|..] == rest;
    if |word| == 7 {
      OiceIsNoNumber(s[3..]);
    }
  }

  lemma OiceIsNoNumber(s: string)
    requires s != "" && Lower(s[0]) == 'o'
    ensures DigitsAfterSeparator(s) == None
  {
    assert Digits(s) == "";
  }

  // ---------------------------------------------------------------------------------------
  // The comparison
  // ---------------------------------------------------------------------------------------

  /** The fields of a document that content matching reads. */
  datatype Content = Content(filename: string, vendor: Option<string>, date: Option<int>, total: Option<real>)

  /** Both numbers known and different. */
  predicate NumbersDiffer(a: Content, b: Content) {
    var m, n := InvoiceNumber(a.filename), InvoiceNumber(b.filename);
    m.Some? && n.Some? && m != n
  }

  /** The same invoice in substance. */
  predicate SameInvoice(a: Content, b: Content) {
    && a.date.Some? && a.total.Some? && a.date == b.date && a.total == b.total
    && VendorTokens(a.vendor) * VendorTokens(b.vendor) != {}
    && !NumbersDiffer(a, b)
  }

  /** Two documents are the same invoice exactly when they have the same known date, the same known total,
      a significant vendor word in common, and not two different invoice numbers. */
  lemma SameInvoiceIff(a: Content, b: Content)
    ensures SameInvoice(a, b) <==>
      && a.date.Some? && b.date.Some? && a.date.value == b.date.value
      && a.total.Some? && b.total.Some? && a.total.value == b.total.value
      && (exists w :: w in VendorTokens(a.vendor) && w in VendorTokens(b.vendor))
      && (InvoiceNumber(a.filename).None? || InvoiceNumber(b.filename).None?
          || InvoiceNumber(a.filename) == InvoiceNumber(b.filename))
    ensures SameInvoice(a, b) <==> SameInvoice(b, a)
  {
    var shared := VendorTokens(a.vendor) * VendorTokens(b.vendor);
    assert shared == VendorTokens(b.vendor) * VendorTokens(a.vendor);
    if w :| w in VendorTokens(a.vendor) && w in VendorTokens(b.vendor) {
      assert w in shared;
    }
    if shared != {} {
      var w :| w in shared;
      assert w in VendorTokens(a.vendor) && w in VendorTokens(b.vendor);
    }
  }

  /** The significant words of a name are its words, in lower case and without full stops and commas, of
      two or more characters, other than the twelve generic ones; a missing name has none. */
  lemma TokensInFields(name: string, w: string)
    ensures VendorTokens(None) == {}
    ensures w in VendorTokens(Some(name)) <==>
      && w in Words(Cleaned(name)) && |w| >= 2
      && w != "corp" && w != "corp." && w != "inc" && w != "inc." && w != "ltd" && w != "ltd."
      && w != "llc" && w != "co" && w != "co." && w != "the" && w != "a" && w != "of"
    ensures |Cleaned(name)| == |name|
    ensures forall i :: 0 <= i < |name| ==>
      Cleaned(name)[i] == (if name[i] == '.' || name[i] == ',' then ' '
                           else if 'A' <= name[i] <= 'Z' then name[i] - 'A' + 'a' else name[i])
  {
  }

  /** Fewer than four digits are no invoice number. */
  lemma ShortNumberIsNone(sep: string, ds: string, tail: string)
    requires (sep == "" && ds != "") || sep == "_" || sep == "-"
    requires |ds| < 4 && (forall i :: 0 <= i < |ds| ==> IsDigit(ds[i])) && (tail != "" ==> !IsDigit(tail[0]))
    ensures DigitsAfterSeparator(sep + ds + tail) == None
  {
    DigitsStopAtTail(ds, tail);
    var s := sep + ds + tail;
    if sep == "" {
      assert s == ds + tail && IsDigit(s[0]);
    } else {
      assert s[1..] == ds + tail;
    }
  }
}

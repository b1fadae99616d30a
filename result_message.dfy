/**
  * Reading the record number, the fin year and the document reference back out of the message
  * of StockAdjustment_Insert. The two patterns are "\d{6}/[A-Z]+/\d+" (letters in either case)
  * and "\d+"; a regular-expression match is the leftmost one, each run as long as it goes.
  */
module ResultMessage {
  import opened Wrappers
  import opened Text

  predicate IsAsciiLetter(c: char) {
    'A' <= c <= 'Z' || 'a' <= c <= 'z'
  }

  /** The length of the longest run of characters satisfying p that starts at position i. */
  function Run(s: string, i: nat, p: char -> bool): (n: nat)
    requires i <= |s|
    ensures i + n <= |s|
    ensures forall k :: i <= k < i + n ==> p(s[k])
    ensures i + n == |s| || !p(s[i + n])
    decreases |s| - i
  {
    if i < |s| && p(s[i]) then 1 + Run(s, i + 1, p) else 0
  }

  /** A run of exactly n characters satisfying p, followed by the end or another character, has length n. */
  lemma {:induction false} RunExact(s: string, i: nat, n: nat, p: char -> bool)
    requires i + n <= |s|
    requires forall k :: i <= k < i + n ==> p(s[k])
    requires i + n == |s| || !p(s[i + n])
    ensures Run(s, i, p) == n
    decreases n
  {
    if n > 0 {
      RunExact(s, i + 1, n - 1, p);
    }
  }

  /** Where a match of "\d{6}/[A-Z]+/\d+" lies: its start, where its third group starts, its end. */
  datatype DocRefMatch = DocRefMatch(start: nat, numberStart: nat, end: nat)

  /** The match of the document-reference pattern that starts at position i, if there is one. */
  function DocRefAt(s: string, i: nat): (m: Option<DocRefMatch>)
    ensures m.Some? ==> m.value.start == i && i + 8 < m.value.numberStart < m.value.end <= |s|
    ensures m.Some? ==> AllDigits(s[m.value.numberStart..m.value.end])
  {
    if i + 7 <= |s| && (forall k :: i <= k < i + 6 ==> IsDigit(s[k])) && s[i + 6] == '/' then
      var letters := Run(s, i + 7, IsAsciiLetter);
      var slash := i + 7 + letters;
      if letters >= 1 && slash < |s| && s[slash] == '/' then
        var digits := Run(s, slash + 1, IsDigit);
        if digits >= 1 then Some(DocRefMatch(i, slash + 1, slash + 1 + digits)) else None
      else None
    else None
  }

  /** A match opens with six digits and its number runs as far as the digits go. */
  lemma DocRefAtShape(s: string, i: nat)
    requires DocRefAt(s, i).Some?
    ensures forall k :: i <= k < i + 6 ==> IsDigit(s[k])
    ensures s[i + 6] == '/'
    ensures var m := DocRefAt(s, i).value; m.end == |s| || !IsDigit(s[m.end])
  {
  }

  /** The positions where a match of the document-reference pattern starts. */
  function StartsDocRef(s: string): nat -> bool {
    (j: nat) => DocRefAt(s, j).Some?
  }

  /** The least position from from to last where found holds. */
  function Leftmost(found: nat -> bool, from: nat, last: nat): (r: Option<nat>)
    ensures r.Some? ==> from <= r.value <= last && found(r.value)
    decreases last + 1 - from
  {
    if from > last then None
    else if found(from) then Some(from)
    else Leftmost(found, from + 1, last)
  }

  /** Leftmost finds the least such position, and None means there is none. */
  lemma {:induction false} LeftmostIsLeast(found: nat -> bool, from: nat, last: nat)
    ensures var r := Leftmost(found, from, last);
      && (r.Some? ==> forall j :: from <= j < r.value ==> !found(j))
      && (r.None? ==> forall j :: from <= j <= last ==> !found(j))
    decreases last + 1 - from
  {
    if from <= last && !found(from) {
      LeftmostIsLeast(found, from + 1, last);
    }
  }

  /** Positions known not to qualify can be skipped. */
  lemma {:induction false} LeftmostSkips(found: nat -> bool, from: nat, i: nat, last: nat)
    requires from <= i <= last + 1
    requires forall j :: from <= j < i ==> !found(j)
    ensures Leftmost(found, from, last) == Leftmost(found, i, last)
    decreases i - from
  {
    if from < i {
      LeftmostSkips(found, from + 1, i, last);
    }
  }

  /** The leftmost match of the document-reference pattern at or after position from. */
  function FirstDocRef(s: string, from: nat): (m: Option<DocRefMatch>)
    ensures m.Some? ==> from <= m.value.start <= |s| && DocRefAt(s, m.value.start) == m
  {
    match Leftmost(StartsDocRef(s), from, |s|)
    case Some(i) => DocRefAt(s, i)
    case None => None
  }

  /** FirstDocRef finds the leftmost match: none starts before it, and None means none at all. */
  lemma FirstDocRefIsLeftmost(s: string, from: nat)
    ensures var m := FirstDocRef(s, from);
      && (m.Some? ==> forall j :: from <= j < m.value.start ==> DocRefAt(s, j).None?)
      && (m.None? ==> forall j :: from <= j <= |s| ==> DocRefAt(s, j).None?)
  {
    var found := StartsDocRef(s);
    LeftmostIsLeast(found, from, |s|);
    forall j | from <= j <= |s| && !found(j) ensures DocRefAt(s, j).None? {
    }
  }

  /** The start of the leftmost digit run at or after position from: the match of "\d+". */
  function FirstDigit(s: string, from: nat): (r: Option<nat>)
    requires from <= |s|
    ensures r.Some? ==> from <= r.value < |s| && IsDigit(s[r.value])
    ensures r.Some? ==> forall j :: from <= j < r.value ==> !IsDigit(s[j])
    ensures r.None? ==> forall j :: from <= j < |s| ==> !IsDigit(s[j])
    decreases |s| - from
  {
    if from == |s| then None
    else if IsDigit(s[from]) then Some(from)
    else FirstDigit(s, from + 1)
  }

  /**
    * ExtractRecNumber: the third group of the first document reference when int.TryParse
    * accepts it; else the first digit run when it accepts that; else 0. A null or empty
    * message gives 0.
    */
  function ExtractRecNumber(message: Option<string>): (n: int)
    ensures message.None? || message.value == "" ==> n == 0
    ensures n >= 0
  {
    if message.None? || message.value == "" then 0
    else
      var fromReference := NumberOfReference(message.value);
      if fromReference.Some? then fromReference.value
      else
        var fromRun := FirstNumber(message.value);
        if fromRun.Some? then fromRun.value else 0
  }

  /** The third group of the first document reference, when int.TryParse accepts it. */
  function NumberOfReference(s: string): (r: Option<int>)
    ensures r.Some? ==> r.value >= 0
  {
    match FirstDocRef(s, 0)
    case Some(m) => ParseDigits(s[m.numberStart..m.end])
    case None => None
  }

  /**
    * The first run of digits, when int.TryParse accepts it: "(\d+)" matches the maximal run at
    * the first digit, and the parse succeeds exactly when its value fits in an Int32.
    */
  function FirstNumber(s: string): (r: Option<int>)
    ensures r.Some? ==> r.value >= 0
    ensures FirstDigit(s, 0).None? ==> r.None?
    ensures FirstDigit(s, 0).Some? ==>
      var i := FirstDigit(s, 0).value;
      var run := s[i..i + Run(s, i, IsDigit)];
      && |run| > 0 && AllDigits(run)
      && (r.Some? <==> DigitsValue(run) <= Int32Max)
      && (r.Some? ==> r.value == DigitsValue(run))
  {
    match FirstDigit(s, 0)
    case Some(i) => ParseDigits(s[i..i + Run(s, i, IsDigit)])
    case None => None
  }

  /** int.TryParse on a run of digits: its value, when that fits in an Int32. */
  function ParseDigits(run: string): (r: Option<int>)
    requires |run| > 0 && AllDigits(run)
    ensures r == ParseInt32(run)
    ensures r.Some? <==> DigitsValue(run) <= Int32Max
    ensures r.Some? ==> r.value == DigitsValue(run)
  {
    assert !IsWhiteSpace(run[0]) && !IsWhiteSpace(run[|run| - 1]) by {
      assert IsDigit(run[0]) && IsDigit(run[|run| - 1]);
    }
    TrimIdentity(run);
    ParseInt32(run)
  }

  /** ExtractDocumentReference: the first document reference in the message, or "". */
  function ExtractDocumentReference(message: Option<string>): (r: string)
    ensures message.None? || message.value == "" ==> r == ""
    ensures r != "" ==>
      FirstDocRef(message.value, 0).Some? &&
      r == message.value[FirstDocRef(message.value, 0).value.start..FirstDocRef(message.value, 0).value.end]
  {
    if message.None? || message.value == "" then ""
    else
      match FirstDocRef(message.value, 0)
      case Some(m) => message.value[m.start..m.end]
      case None => ""
  }

  /** The fin year read before sending the record-created mail: the six digits of the first "\d{6}/", or 0. */
  function ExtractFinYear(message: string): (fy: int)
    ensures 0 <= fy < 1000000
    ensures FirstFinYear(message, 0).None? ==> fy == 0
    ensures FirstFinYear(message, 0).Some? ==>
      var i := FirstFinYear(message, 0).value; fy == DigitsValue(message[i..i + 6])
  {
    match FirstFinYear(message, 0)
    case Some(i) =>
      var run := message[i..i + 6];
      var parsed := ParseDigits(run);
      SixDigitsBound(run);
      if parsed.Some? then parsed.value else 0
    case None => 0
  }

  /** Six digits followed by '/' start at position i: a match of "(\d{6})/". */
  predicate FinYearAt(s: string, i: nat) {
    i + 7 <= |s| && AllDigits(s[i..i + 6]) && s[i + 6] == '/'
  }

  /** The leftmost position at or after from where "(\d{6})/" matches; None when it matches nowhere. */
  function FirstFinYear(s: string, from: nat): (r: Option<nat>)
    requires from <= |s|
    ensures r.Some? ==> from <= r.value && FinYearAt(s, r.value)
    ensures r.Some? ==> forall j :: from <= j < r.value ==> !FinYearAt(s, j)
    ensures r.None? ==> forall j :: from <= j ==> !FinYearAt(s, j)
    decreases |s| - from
  {
    if from + 7 > |s| then None
    else if AllDigits(s[from..from + 6]) && s[from + 6] == '/' then Some(from)
    else FirstFinYear(s, from + 1)
  }

  lemma {:induction false} SixDigitsBound(run: string)
    requires |run| == 6 && AllDigits(run)
    ensures DigitsValue(run) < 1000000
  {
    DigitsBound(run);
  }

  /** A run of k digits is worth less than 10^k. */
  lemma {:induction false} DigitsBound(run: string)
    requires AllDigits(run)
    ensures DigitsValue(run) < Pow10(|run|)
  {
    if run != [] {
      DigitsBound(run[..|run| - 1]);
    }
  }

  // ---------------------------------------------------------------- reading back a reference

  /** A document reference as written: "{finYear}/{name}/{recNumber}". */
  function FormatReference(finYear: nat, name: string, recNumber: nat): string {
    NatToString(finYear) + "/" + name + "/" + NatToString(recNumber)
  }

  predicate NoDigits(s: string) {
    forall k :: 0 <= k < |s| ==> !IsDigit(s[k])
  }

  predicate AllLetters(s: string) {
    forall k :: 0 <= k < |s| ==> IsAsciiLetter(s[k])
  }

  /** A six-digit number is written with six digits. */
  lemma {:induction false} NatToStringLength(n: nat, k: nat)
    requires k >= 1 && Pow10(k - 1) <= n < Pow10(k)
    ensures |NatToString(n)| == k
  {
    if k > 1 {
      NatToStringLength(n / 10, k - 1);
    }
  }

  /**
    * Six digits, '/', L letters, '/', and R digits not followed by a digit, written at position i,
    * are the match at i.
    */
  lemma DocRefAtPieces(s: string, i: nat, letters: nat, digits: nat)
    requires DocRefLayout(s, i, letters, digits)
    ensures DocRefAt(s, i) == Some(DocRefMatch(i, i + 8 + letters, i + 8 + letters + digits))
  {
    var slash := i + 7 + letters;
    assert !IsAsciiLetter(s[slash]);
    RunExact(s, i + 7, letters, IsAsciiLetter);
    RunExact(s, slash + 1, digits, IsDigit);
    assert i + 7 <= |s| && (forall k :: i <= k < i + 6 ==> IsDigit(s[k])) && s[i + 6] == '/';
    assert Run(s, i + 7, IsAsciiLetter) == letters && slash < |s| && s[slash] == '/';
  }

  /** The match found in a message that carries a reference after text without digits. */
  lemma ReferenceMatch(pre: string, finYear: nat, name: string, recNumber: nat, post: string)
    requires 100000 <= finYear <= 999999 && |name| >= 1 && AllLetters(name)
    requires NoDigits(pre) && (post == [] || !IsDigit(post[0]))
    ensures var ref := FormatReference(finYear, name, recNumber);
      var s := pre + ref + post;
      FirstDocRef(s, 0) == Some(DocRefMatch(|pre|, |pre| + 8 + |name|, |pre| + |ref|))
  {
    SixDigitYear(finYear);
    var fy, rn := NatToString(finYear), NatToString(recNumber);
    assert FormatReference(finYear, name, recNumber) == fy + "/" + name + "/" + rn;
    assert |fy + "/" + name + "/" + rn| == 8 + |name| + |rn|;
    ReferenceTextMatch(pre, fy, name, rn, post);
  }

  /** A fin year from 100000 to 999999 is written with six digits. */
  lemma SixDigitYear(finYear: nat)
    requires 100000 <= finYear <= 999999
    ensures |NatToString(finYear)| == 6
  {
    assert Pow10(5) == 100000 by {
      assert Pow10(1) == 10 && Pow10(2) == 100 && Pow10(3) == 1000 && Pow10(4) == 10000;
    }
    NatToStringLength(finYear, 6);
  }

  /** ReferenceMatch over the digit strings of the two numbers. */
  lemma ReferenceTextMatch(pre: string, fy: string, name: string, rn: string, post: string)
    requires |fy| == 6 && AllDigits(fy) && |name| >= 1 && AllLetters(name) && |rn| >= 1 && AllDigits(rn)
    requires NoDigits(pre) && (post == [] || !IsDigit(post[0]))
    ensures var s := pre + (fy + "/" + name + "/" + rn) + post;
      FirstDocRef(s, 0) == Some(DocRefMatch(|pre|, |pre| + 8 + |name|, |pre| + 8 + |name| + |rn|))
  {
    ReferencePieces(pre, fy, name, rn, post);
    LeadingDocRef(pre + (fy + "/" + name + "/" + rn) + post, |pre|, |name|, |rn|);
  }

  /** A match laid out piece by piece at i, with no digit before it, is the leftmost match. */
  lemma LeadingDocRef(s: string, i: nat, letters: nat, digits: nat)
    requires NoDigitBefore(s, i) && DocRefLayout(s, i, letters, digits)
    ensures FirstDocRef(s, 0) == Some(DocRefMatch(i, i + 8 + letters, i + 8 + letters + digits))
  {
    DocRefAtPieces(s, i, letters, digits);
    NoMatchBefore(s, i);
  }

  /** No digit occurs before position i. */
  predicate NoDigitBefore(s: string, i: nat) {
    i <= |s| && forall k :: 0 <= k < i ==> !IsDigit(s[k])
  }

  /**
    * The pieces of a match of "(\d{6})/([A-Z]+)/(\d+)" lie at i: six digits, a slash, letters
    * letters, a slash, and a maximal run of digits digits.
    */
  predicate DocRefLayout(s: string, i: nat, letters: nat, digits: nat) {
    && letters >= 1 && digits >= 1 && i + 8 + letters + digits <= |s|
    && (forall k :: i <= k < i + 6 ==> IsDigit(s[k]))
    && s[i + 6] == '/' && s[i + 7 + letters] == '/'
    && (forall k :: i + 7 <= k < i + 7 + letters ==> IsAsciiLetter(s[k]))
    && (forall k :: i + 8 + letters <= k < i + 8 + letters + digits ==> IsDigit(s[k]))
    && (i + 8 + letters + digits == |s| || !IsDigit(s[i + 8 + letters + digits]))
  }

  /** Where the pieces of a written reference lie in the message. */
  lemma ReferencePieces(pre: string, fy: string, name: string, rn: string, post: string)
    requires |fy| == 6 && AllDigits(fy) && AllLetters(name) && AllDigits(rn)
    requires NoDigits(pre) && (post == [] || !IsDigit(post[0]))
    ensures var s := pre + (fy + "/" + name + "/" + rn) + post;
      NoDigitBefore(s, |pre|) && (|name| >= 1 && |rn| >= 1 ==> DocRefLayout(s, |pre|, |name|, |rn|))
  {
    var r1 := fy + "/";
    var r2 := r1 + name;
    var r3 := r2 + "/";
    var ref := r3 + rn;
    var a := pre + ref;
    var s := a + post;
    var i := |pre|;
    var ns := i + 8 + |name|;
    forall k | 0 <= k < i ensures !IsDigit(s[k]) {
      assert s[k] == a[k] == pre[k];
    }
    forall k | i <= k < i + 6 ensures IsDigit(s[k]) {
      assert s[k] == a[k] == ref[k - i] == r3[k - i] == r2[k - i] == r1[k - i] == fy[k - i];
    }
    assert s[i + 6] == a[i + 6] == ref[6] == r3[6] == r2[6] == r1[6] == '/';
    assert s[i + 7 + |name|] == a[i + 7 + |name|] == ref[7 + |name|] == r3[7 + |name|] == '/';
    forall k | i + 7 <= k < i + 7 + |name| ensures IsAsciiLetter(s[k]) {
      assert s[k] == a[k] == ref[k - i] == r3[k - i] == r2[k - i] == name[k - i - 7];
    }
    forall k | ns <= k < ns + |rn| ensures IsDigit(s[k]) {
      assert s[k] == a[k] == ref[k - i] == rn[k - ns];
    }
    if post != [] {
      assert s[ns + |rn|] == post[0];
    }
  }

  /** With no digit before position i and a match at i, the leftmost match is the one at i. */
  lemma NoMatchBefore(s: string, i: nat)
    requires i <= |s| && forall j :: 0 <= j < i ==> !IsDigit(s[j])
    requires DocRefAt(s, i).Some?
    ensures FirstDocRef(s, 0) == DocRefAt(s, i)
  {
    var found := StartsDocRef(s);
    forall j | 0 <= j < i ensures !found(j) {
      assert !IsDigit(s[j]);
    }
    LeftmostSkips(found, 0, i, |s|);
    assert found(i);
  }

  /**
    * A message that carries "{finYear}/{name}/{recNumber}" after text without digits gives back
    * that record number and that reference.
    */
  lemma ExtractRoundTrip(pre: string, finYear: nat, name: string, recNumber: nat, post: string)
    requires 100000 <= finYear <= 999999 && |name| >= 1 && AllLetters(name) && recNumber <= Int32Max
    requires NoDigits(pre) && (post == [] || !IsDigit(post[0]))
    ensures var message := Some(pre + FormatReference(finYear, name, recNumber) + post);
      ExtractRecNumber(message) == recNumber &&
      ExtractDocumentReference(message) == FormatReference(finYear, name, recNumber)
  {
    var ref := FormatReference(finYear, name, recNumber);
    var s := pre + ref + post;
    ReferenceMatch(pre, finYear, name, recNumber, post);
    Middle(pre, ref, post, 0);
    ReferenceNumber(pre, finYear, name, recNumber, post);
    ExtractFromReference(s);
  }

  /** The number read from the reference is the record number written into it. */
  lemma ReferenceNumber(pre: string, finYear: nat, name: string, recNumber: nat, post: string)
    requires 100000 <= finYear <= 999999 && recNumber <= Int32Max
    requires var s := pre + FormatReference(finYear, name, recNumber) + post;
      FirstDocRef(s, 0) == Some(DocRefMatch(|pre|, |pre| + 8 + |name|, |pre| + |FormatReference(finYear, name, recNumber)|))
    ensures NumberOfReference(pre + FormatReference(finYear, name, recNumber) + post) == Some(recNumber)
  {
    var ref := FormatReference(finYear, name, recNumber);
    var rn := NatToString(recNumber);
    SixDigitYear(finYear);
    ReferenceNumberText(finYear, name, recNumber);
    Middle(pre, ref, post, 8 + |name|);
    ParseNatToString(recNumber);
    var s := pre + ref + post;
    var m := FirstDocRef(s, 0).value;
    assert s[m.numberStart..m.end] == rn;
  }

  /** int.TryParse reads back a record number written by Int32.ToString. */
  lemma ParseNatToString(n: nat)
    requires n <= Int32Max
    ensures ParseDigits(NatToString(n)) == Some(n)
  {
    NatToStringRoundTrip(n);
  }

  /** When the first reference carries a number int.TryParse accepts, that number is the result. */
  lemma ExtractFromReference(s: string)
    requires s != "" && NumberOfReference(s).Some?
    ensures ExtractRecNumber(Some(s)) == NumberOfReference(s).value
  {
  }

  /** The first digit of s is at i when s[i] is a digit and nothing before it is. */
  lemma FirstDigitIs(s: string, i: nat)
    requires i < |s| && IsDigit(s[i]) && forall j :: 0 <= j < i ==> !IsDigit(s[j])
    ensures FirstDigit(s, 0) == Some(i)
  {
  }

  /**
    * Without a reference whose number int.TryParse accepts, the record number comes from the
    * fallback "(\d+)": the first digit run when it parses (see FirstNumber), and 0 otherwise.
    */
  lemma RecNumberFallback(s: string)
    requires s != "" && NumberOfReference(s).None?
    ensures ExtractRecNumber(Some(s)) == FirstNumber(s).GetOr(0)
  {
  }

  /** A message without a reference and without any digit gives 0. */
  lemma RecNumberNoDigits(s: string)
    requires NoDigits(s)
    ensures ExtractRecNumber(Some(s)) == 0
  {
    if s != [] {
      var m := FirstDocRef(s, 0);
      if m.Some? {
        DocRefAtShape(s, m.value.start);
      }
    }
  }

  /** The first reference of a message is read for its number: NumberOfReference parses its third group. */
  lemma FirstReferenceNumber(pre: string, fy: string, name: string, rn: string, post: string)
    requires |fy| == 6 && AllDigits(fy) && |name| >= 1 && AllLetters(name) && |rn| >= 1 && AllDigits(rn)
    requires NoDigits(pre) && (post == [] || !IsDigit(post[0]))
    ensures NumberOfReference(pre + (fy + "/" + name + "/" + rn) + post) == ParseDigits(rn)
  {
    ReferenceTextMatch(pre, fy, name, rn, post);
    NumberPiece(pre, fy, name, rn, post);
    NumberAtMatch(pre + (fy + "/" + name + "/" + rn) + post,
      DocRefMatch(|pre|, |pre| + 8 + |name|, |pre| + 8 + |name| + |rn|), rn);
  }

  /** Where the third group of a reference placed between pre and post sits. */
  lemma NumberPiece(pre: string, fy: string, name: string, rn: string, post: string)
    requires |fy| == 6
    ensures var s := pre + (fy + "/" + name + "/" + rn) + post;
      |pre| + 8 + |name| + |rn| <= |s| && s[|pre| + 8 + |name|..|pre| + 8 + |name| + |rn|] == rn
  {
    var head := fy + "/" + name + "/";
    assert |head| == 8 + |name|;
    TailPiece(pre, head, rn, post);
  }

  /** The number of a message is read from the third group of its first reference. */
  lemma NumberAtMatch(s: string, m: DocRefMatch, rn: string)
    requires FirstDocRef(s, 0) == Some(m) && m.numberStart <= m.end <= |s| && s[m.numberStart..m.end] == rn
    ensures NumberOfReference(s) == ParseDigits(rn)
  {
  }

  lemma NumberOfFirstReference(s: string, m: DocRefMatch)
    requires FirstDocRef(s, 0) == Some(m)
    ensures m.numberStart < m.end <= |s| && AllDigits(s[m.numberStart..m.end])
    ensures NumberOfReference(s) == ParseDigits(s[m.numberStart..m.end])
  {
  }

  /** The last piece of a text placed between pre and post. */
  lemma TailPiece(pre: string, head: string, tail: string, post: string)
    ensures (pre + (head + tail) + post)[|pre| + |head|..|pre| + |head| + |tail|] == tail
  {
    Middle(pre, head + tail, post, |head|);
    assert (head + tail)[|head|..] == tail;
  }

  /** Six digits and a slash at the start: the first number is the value of those six digits. */
  lemma LeadingFinYear(s: string)
    requires 7 <= |s| && AllDigits(s[..6]) && s[6] == '/'
    ensures FirstNumber(s) == Some(DigitsValue(s[..6]))
  {
    assert forall k :: 0 <= k < 6 ==> s[..6][k] == s[k];
    FirstDigitIs(s, 0);
    RunExact(s, 0, 6, IsDigit);
    SixDigitsBound(s[..6]);
  }

  /**
    * A message opening with six digits and a slash, without a reference whose number
    * int.TryParse accepts, gives the value of those six digits.
    */
  lemma FinYearFallback(s: string)
    requires 7 <= |s| && AllDigits(s[..6]) && s[6] == '/' && NumberOfReference(s).None?
    ensures ExtractRecNumber(Some(s)) == DigitsValue(s[..6])
  {
    RecNumberFallback(s);
    LeadingFinYear(s);
  }

  /** A message that starts with a reference starts with its six digits and a slash. */
  lemma ReferenceOpens(fy: string, name: string, rn: string, post: string)
    requires |fy| == 6
    ensures var s := fy + "/" + name + "/" + rn + post;
      "" + (fy + "/" + name + "/" + rn) + post == s && 7 <= |s| && s[..6] == fy && s[6] == '/'
  {
    var year := fy + "/";
    var s := year + name + "/" + rn + post;
    assert s[..7] == year;
  }

  /**
    * When the number of a leading reference does not fit in an Int32, int.TryParse refuses it and
    * the fallback returns the fin year, the first digit run of the message.
    */
  lemma OverflowingNumberGivesFinYear(fy: string, name: string, rn: string, post: string)
    requires |fy| == 6 && AllDigits(fy) && |name| >= 1 && AllLetters(name) && |rn| >= 1 && AllDigits(rn)
    requires post == [] || !IsDigit(post[0])
    requires DigitsValue(rn) > Int32Max
    ensures ExtractRecNumber(Some(fy + "/" + name + "/" + rn + post)) == DigitsValue(fy)
  {
    ReferenceOpens(fy, name, rn, post);
    FirstReferenceNumber("", fy, name, rn, post);
    FinYearFallback(fy + "/" + name + "/" + rn + post);
  }

  /** The slice of pre + x + post that starts j characters into x and ends with x. */
  lemma Middle(pre: string, x: string, post: string, j: nat)
    requires j <= |x|
    ensures (pre + x + post)[|pre| + j..|pre| + |x|] == x[j..]
  {
    var s := pre + x + post;
    forall k | 0 <= k < |x| - j ensures s[|pre| + j..|pre| + |x|][k] == x[j..][k] {
      assert s[|pre| + j + k] == (pre + x)[|pre| + j + k] == x[j + k];
    }
  }

  /** The record number is written at the end of the reference, after the name and its slash. */
  lemma ReferenceNumberText(finYear: nat, name: string, recNumber: nat)
    requires |NatToString(finYear)| == 6
    ensures FormatReference(finYear, name, recNumber)[8 + |name|..] == NatToString(recNumber)
  {
    var head := NatToString(finYear) + "/" + name + "/";
    assert FormatReference(finYear, name, recNumber) == head + NatToString(recNumber);
    assert |head| == 8 + |name|;
  }
}

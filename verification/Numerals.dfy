/**
The Spanish-locale number parsers: '.' groups thousands, ',' starts the decimals.
ASCII digits only.
*/
module Numerals {
  import opened Wrappers
  import opened Decimals
  import Texts

  const STRIP: seq<string> := ["\U{20AC}", "$", "m\U{B2}", "m2"]

  /** `text.replace(pattern, "")`. */
  function Removed(s: string, pattern: string): string
    requires pattern != []
    decreases |s|
  {
    if |s| < |pattern| then s
    else if s[..|pattern|] == pattern then Removed(s[|pattern|..], pattern)
    else [s[0]] + Removed(s[1..], pattern)
  }

  function RemovedAll(s: string, n: nat): string
    requires n <= |STRIP|
  {
    if n == 0 then s else Removed(RemovedAll(s, n - 1), STRIP[n - 1])
  }

  function Cleaned(text: string): string {
    Texts.Strip(RemovedAll(text, |STRIP|))
  }

  method Clean(text: string) returns (cleaned: string)
    ensures cleaned == Cleaned(text)
  {
    cleaned := text;
    for i := 0 to |STRIP|
      invariant cleaned == RemovedAll(text, i)
    {
      cleaned := Removed(cleaned, STRIP[i]);
    }
    cleaned := Texts.Strip(cleaned);
  }

  lemma RemovedStep(s: string, pattern: string)
    requires pattern != [] && s != [] && !(pattern <= s)
    ensures Removed(s, pattern) == [s[0]] + Removed(s[1..], pattern)
  {
  }

  lemma {:induction false} RemovedBehind(front: string, s: string, pattern: string)
    requires pattern != [] && forall i :: 0 <= i < |front| ==> !(pattern <= (front + s)[i..])
    ensures Removed(front + s, pattern) == front + Removed(s, pattern)
  {
    hide Removed;
    if front == [] {
      assert front + s == s;
    } else {
      assert (front + s)[0..] == front + s && (front + s)[1..] == front[1..] + s;
      RemovedStep(front + s, pattern);
      forall i | 0 <= i < |front[1..]|
        ensures !(pattern <= (front[1..] + s)[i..])
      {
        assert (front[1..] + s)[i..] == (front + s)[i + 1..];
      }
      RemovedBehind(front[1..], s, pattern);
    }
  }

  lemma UnitsDoNotOverlap(unit: string, s: string, pattern: string)
    requires unit in STRIP && pattern in STRIP && unit != pattern
    ensures Removed(unit + s, pattern) == unit + Removed(s, pattern)
  {
    assert STRIP[0] == "\U{20AC}" && STRIP[1] == "$" && STRIP[2] == "m\U{B2}" && STRIP[3] == "m2";
    forall i | 0 <= i < |unit|
      ensures !(pattern <= (unit + s)[i..])
    {
      assert (unit + s)[i..][0] == unit[i];
      assert |unit| == 2 && i == 0 ==> (unit + s)[i..][1] == unit[1];
    }
    RemovedBehind(unit, s, pattern);
  }

  lemma {:induction false} RemovedAllBehind(k: nat, s: string, n: nat)
    requires k < |STRIP| && n <= |STRIP|
    ensures RemovedAll(STRIP[k] + s, n) == (if n <= k then STRIP[k] else []) + RemovedAll(s, n)
  {
    if n == 0 {
    } else {
      RemovedAllBehind(k, s, n - 1);
      var rest := RemovedAll(s, n - 1);
      if n - 1 == k {
        assert (STRIP[k] + rest)[..|STRIP[k]|] == STRIP[k] && (STRIP[k] + rest)[|STRIP[k]|..] == rest;
      } else if n - 1 < k {
        UnitsDoNotOverlap(STRIP[k], rest, STRIP[n - 1]);
      } else {
        assert RemovedAll(STRIP[k] + s, n - 1) == [] + rest == rest;
      }
    }
  }

  /** A unit in front of a text is as good as not there. */
  lemma UnitsAreRemoved(unit: string, s: string)
    requires unit == "\U{20AC}" || unit == "$" || unit == "m\U{B2}" || unit == "m2"
    ensures Cleaned(unit + s) == Cleaned(s)
  {
    assert STRIP[0] == "\U{20AC}" && STRIP[1] == "$" && STRIP[2] == "m\U{B2}" && STRIP[3] == "m2";
    var k := if unit == "\U{20AC}" then 0 else if unit == "$" then 1 else if unit == "m\U{B2}" then 2 else 3;
    RemovedAllBehind(k, s, |STRIP|);
    assert RemovedAll(unit + s, |STRIP|) == [] + RemovedAll(s, |STRIP|) == RemovedAll(s, |STRIP|);
  }

  predicate IsNumeric(c: char) {
    IsDigit(c) || c == '.' || c == ','
  }

  predicate AllNumeric(s: string) {
    forall i :: 0 <= i < |s| ==> IsNumeric(s[i])
  }

  function NumericRun(s: string): string {
    if s != [] && IsNumeric(s[0]) then [s[0]] + NumericRun(s[1..]) else []
  }

  /** The leftmost, longest match of the expression `-?[\d.,]+`. */
  function Search(s: string): Option<string> {
    if s == [] then None
    else if IsNumeric(s[0]) then Some(NumericRun(s))
    else if s[0] == '-' && |s| > 1 && IsNumeric(s[1]) then Some("-" + NumericRun(s[1..]))
    else Search(s[1..])
  }

  function Without(s: string, c: char): string {
    if s == [] then [] else (if s[0] == c then [] else [s[0]]) + Without(s[1..], c)
  }

  function Exchanged(s: string, c: char, d: char): string {
    seq(|s|, i requires 0 <= i < |s| => if s[i] == c then d else s[i])
  }

  function Retoken(token: string): string {
    if ',' in token then Exchanged(Without(token, '.'), ',', '.') else Without(token, '.')
  }

  /** Python's `Decimal(text)` on texts of digits and points with an optional minus sign. */
  function ReadDecimal(text: string): Option<Decimal> {
    var neg := text != [] && text[0] == '-';
    var (whole, rest) := Texts.Partition(if neg then text[1..] else text, '.');
    var decimals := if rest.Some? then rest.value else [];
    if whole + decimals == [] || !AllDigits(whole + decimals) then None
    else Some(Decimal(neg, NatOf(whole + decimals), -|decimals|))
  }

  method ParseDecimal(text: Option<string>) returns (parsed: Option<Decimal>)
    ensures parsed == Parsed(text)
  {
    if text.None? {
      return None;
    }
    var cleaned := Clean(text.value);
    var found := Search(cleaned);
    if found.None? {
      return None;
    }
    var token := found.value;
    if ',' in token {
      token := Without(token, '.');
      token := Exchanged(token, ',', '.');
    } else {
      token := Without(token, '.');
    }
    parsed := ReadDecimal(token);
  }

  function Parsed(text: Option<string>): Option<Decimal> {
    match text
    case None => None
    case Some(t) =>
      match Search(Cleaned(t))
      case None => None
      case Some(token) => ReadDecimal(Retoken(token))
  }

  /** `Money` refuses a negative amount and `Area` one that is not positive; both become None. */
  function ParseMoney(text: Option<string>): (amount: Option<Decimal>)
    ensures amount.Some? ==> 0.0 <= Value(amount.value)
    ensures amount == if Parsed(text).Some? && 0.0 <= Value(Parsed(text).value) then Parsed(text) else None
  {
    match Parsed(text)
    case None => None
    case Some(d) => ValueSign(d); if d.neg && d.coeff > 0 then None else Some(d)
  }

  function ParseArea(text: Option<string>): (area: Option<Decimal>)
    ensures area.Some? ==> 0.0 < Value(area.value)
    ensures area == if Parsed(text).Some? && 0.0 < Value(Parsed(text).value) then Parsed(text) else None
  {
    match Parsed(text)
    case None => None
    case Some(d) => ValueSign(d); if d.neg || d.coeff == 0 then None else Some(d)
  }

  function Signed(neg: bool, s: string): string {
    if neg then "-" + s else s
  }

  // ----- What a token of digits, points and commas is read as

  function CountOf(s: string, c: char): nat {
    if s == [] then 0 else (if s[0] == c then 1 else 0) + CountOf(s[1..], c)
  }

  function Digits(s: string): string {
    Without(Without(s, '.'), ',')
  }

  /** The reading of a token, said without rewriting it. */
  function Meaning(neg: bool, token: string): Option<Decimal>
    requires AllNumeric(token)
  {
    DigitsAreDigits(token);
    var (whole, rest) := Texts.Partition(token, ',');
    if CountOf(token, ',') > 1 || Digits(token) == [] then None
    else Some(Decimal(neg, NatOf(Digits(token)), if rest.Some? then -|Digits(rest.value)| else 0))
  }

  lemma DigitsAreDigits(token: string)
    requires AllNumeric(token)
    ensures AllDigits(Digits(token))
  {
    var d := Digits(token);
    WithoutKeeps(token, '.');
    WithoutKeeps(Without(token, '.'), ',');
    forall i | 0 <= i < |d| ensures IsDigit(d[i]) {
      assert d[i] in Without(token, '.');
      assert d[i] in token;
    }
  }

  lemma {:induction false} WithoutKeeps(s: string, c: char)
    ensures c !in Without(s, c)
    ensures forall d :: d in Without(s, c) ==> d in s
  {
    if s == [] {
    } else {
      WithoutKeeps(s[1..], c);
    }
  }

  lemma {:induction false} WithoutConcat(a: string, b: string, c: char)
    ensures Without(a + b, c) == Without(a, c) + Without(b, c)
  {
    if a == [] {
      assert a + b == b;
    } else {
      assert (a + b)[1..] == a[1..] + b;
      WithoutConcat(a[1..], b, c);
    }
  }

  lemma {:induction false} WithoutAbsent(s: string, c: char)
    requires c !in s
    ensures Without(s, c) == s
  {
    if s == [] {
    } else {
      WithoutAbsent(s[1..], c);
    }
  }

  lemma {:induction false} CountConcat(a: string, b: string, c: char)
    ensures CountOf(a + b, c) == CountOf(a, c) + CountOf(b, c)
  {
    if a == [] {
      assert a + b == b;
    } else {
      assert (a + b)[1..] == a[1..] + b;
      CountConcat(a[1..], b, c);
    }
  }

  lemma {:induction false} CountZeroIffAbsent(s: string, c: char)
    ensures CountOf(s, c) == 0 <==> c !in s
  {
    if s == [] {
    } else {
      CountZeroIffAbsent(s[1..], c);
      assert c in s <==> c == s[0] || c in s[1..];
    }
  }

  lemma {:induction false} CountWithout(s: string, c: char, d: char)
    requires c != d
    ensures CountOf(Without(s, c), d) == CountOf(s, d)
  {
    if s == [] {
    } else {
      CountWithout(s[1..], c, d);
      CountConcat(if s[0] == c then [] else [s[0]], Without(s[1..], c), d);
    }
  }

  lemma CommaCount(whole: string, tail: string)
    ensures CountOf(whole + [','] + tail, ',') == CountOf(whole, ',') + 1 + CountOf(tail, ',')
  {
    CountConcat(whole + [','], tail, ',');
    CountConcat(whole, [','], ',');
  }

  lemma WithoutPoints(whole: string, tail: string)
    ensures Without(whole + [','] + tail, '.') == Without(whole, '.') + [','] + Without(tail, '.')
  {
    assert Without([','], '.') == [','];
    hide Without;
    WithoutConcat(whole + [','], tail, '.');
    WithoutConcat(whole, [','], '.');
  }

  lemma DigitsAroundComma(whole: string, tail: string)
    ensures Digits(whole + [','] + tail) == Digits(whole) + Digits(tail)
  {
    assert Without([','], ',') == [];
    hide Without;
    WithoutPoints(whole, tail);
    WithoutConcat(Without(whole, '.') + [','], Without(tail, '.'), ',');
    WithoutConcat(Without(whole, '.'), [','], ',');
  }

  lemma UnsignedReading(text: string)
    requires text == [] || text[0] != '-'
    ensures ReadDecimal("-" + text) ==
            match ReadDecimal(text) case Some(d) => Some(d.(neg := true)) case None => None
    ensures ReadDecimal(text).Some? ==> !ReadDecimal(text).value.neg
  {
    assert ("-" + text)[1..] == text;
  }

  lemma RetokenWithoutComma(token: string)
    requires AllNumeric(token) && ',' !in token
    ensures ReadDecimal(Retoken(token)) == Meaning(false, token)
  {
    var undotted := Without(token, '.');
    WithoutKeeps(token, '.');
    DigitsAreDigits(token);
    CountZeroIffAbsent(token, ',');
    WithoutAbsent(undotted, ',');
    Texts.PartitionNowhere(undotted, '.');
    Texts.PartitionNowhere(token, ',');
    assert undotted + [] == undotted;
  }

  lemma {:induction false} ExchangedAbsent(s: string, c: char, d: char)
    ensures c !in s ==> Exchanged(s, c, d) == s
    ensures c in s ==> d in Exchanged(s, c, d)
  {
    if c in s {
      var k :| 0 <= k < |s| && s[k] == c;
      assert Exchanged(s, c, d)[k] == d;
    }
  }

  lemma ExchangedPointed(left: string, right: string)
    ensures Exchanged(left + [','] + right, ',', '.') == Exchanged(left, ',', '.') + ['.'] + Exchanged(right, ',', '.')
  {
  }

  lemma RetokenShape(whole: string, tail: string)
    requires ',' !in whole
    ensures Retoken(whole + [','] + tail) == Without(whole, '.') + ['.'] + Exchanged(Without(tail, '.'), ',', '.')
  {
    hide Without, Exchanged;
    var left, right := Without(whole, '.'), Without(tail, '.');
    var token := whole + [','] + tail;
    assert token[|whole|] == ',';
    WithoutPoints(whole, tail);
    WithoutKeeps(whole, '.');
    ExchangedAbsent(left, ',', '.');
    ExchangedPointed(left, right);
  }

  lemma WholeDigits(whole: string)
    requires ',' !in whole
    ensures Without(whole, '.') == Digits(whole)
  {
    WithoutKeeps(whole, '.');
    WithoutAbsent(Without(whole, '.'), ',');
  }

  lemma TailDigits(tail: string)
    ensures var right := Exchanged(Without(tail, '.'), ',', '.');
            if CountOf(tail, ',') == 0 then right == Digits(tail) else '.' in right
  {
    var right := Without(tail, '.');
    CountWithout(tail, '.', ',');
    CountZeroIffAbsent(right, ',');
    ExchangedAbsent(right, ',', '.');
    if ',' !in right {
      WithoutAbsent(right, ',');
    }
  }

  lemma ReadPointed(left: string, right: string)
    requires '.' !in left && (left == [] || left[0] != '-')
    ensures ReadDecimal(left + ['.'] + right) ==
            if left + right == [] || !AllDigits(left + right) then None
            else Some(Decimal(false, NatOf(left + right), -|right|))
  {
    var text := left + ['.'] + right;
    assert text[0] == if left == [] then '.' else left[0];
    Texts.PartitionAt(left, '.', right);
  }

  lemma PointIsNoDigit(left: string, right: string)
    requires '.' in right
    ensures !AllDigits(left + right)
  {
    var k :| 0 <= k < |right| && right[k] == '.';
    assert (left + right)[|left| + k] == '.';
  }

  lemma RetokenWithComma(whole: string, tail: string)
    requires AllNumeric(whole) && AllNumeric(tail) && ',' !in whole
    ensures ReadDecimal(Retoken(whole + [','] + tail))
            == if CountOf(tail, ',') > 0 || Digits(whole) + Digits(tail) == [] then None
               else (DigitsAreDigits(whole); DigitsAreDigits(tail);
                     Some(Decimal(false, NatOf(Digits(whole) + Digits(tail)), -|Digits(tail)|)))
  {
    hide Without, Exchanged, ReadDecimal, Retoken, CountOf, NatOf;
    var left, right := Without(whole, '.'), Exchanged(Without(tail, '.'), ',', '.');
    RetokenShape(whole, tail);
    WholeDigits(whole);
    TailDigits(tail);
    DigitsAreDigits(whole);
    DigitsAreDigits(tail);
    WithoutKeeps(whole, '.');
    ReadPointed(left, right);
    if CountOf(tail, ',') > 0 {
      PointIsNoDigit(left, right);
    }
  }

  lemma MeaningWithComma(neg: bool, whole: string, tail: string)
    requires AllNumeric(whole) && AllNumeric(tail) && ',' !in whole
    ensures AllNumeric(whole + [','] + tail)
    ensures Meaning(neg, whole + [','] + tail)
            == if CountOf(tail, ',') > 0 || Digits(whole) + Digits(tail) == [] then None
               else (DigitsAreDigits(whole); DigitsAreDigits(tail);
                     Some(Decimal(neg, NatOf(Digits(whole) + Digits(tail)), -|Digits(tail)|)))
  {
    hide CountOf, Digits, NatOf, Texts.Partition;
    CountZeroIffAbsent(whole, ',');
    CommaCount(whole, tail);
    DigitsAroundComma(whole, tail);
    Texts.PartitionAt(whole, ',', tail);
  }

  /** Rewriting the token and handing it to Decimal gives its meaning. */
  lemma RetokenMeaning(token: string)
    requires AllNumeric(token)
    ensures ReadDecimal(Retoken(token)) == Meaning(false, token)
  {
    hide ReadDecimal, Retoken, Meaning, CountOf, Digits, NatOf, Texts.Partition;
    var (whole, rest) := Texts.Partition(token, ',');
    if rest.None? {
      RetokenWithoutComma(token);
    } else {
      assert whole == token[..|whole|] && rest.value == token[|whole| + 1..];
      RetokenWithComma(whole, rest.value);
      MeaningWithComma(false, whole, rest.value);
      assert token == whole + [','] + rest.value;
    }
  }

  lemma SignedRetoken(token: string)
    requires AllNumeric(token)
    ensures Retoken("-" + token) == "-" + Retoken(token)
  {
    WithoutConcat("-", token, '.');
    assert Without("-", '.') == "-";
    var w := Without(token, '.');
    if ',' in token {
      assert ("-" + token)[1..] == token;
      assert ',' in "-" + token;
      assert Exchanged("-" + w, ',', '.') == "-" + Exchanged(w, ',', '.');
    }
  }

  lemma {:induction false} RunStops(token: string, rest: string)
    requires AllNumeric(token) && (rest == [] || !IsNumeric(rest[0]))
    ensures NumericRun(token + rest) == token
  {
    if token == [] {
      assert token + rest == rest;
    } else {
      assert (token + rest)[1..] == token[1..] + rest;
      RunStops(token[1..], rest);
    }
  }

  /** What stands before a number: no digit, point or comma, and no minus sign of its own right at the end. */
  predicate Precedes(before: string, neg: bool) {
    && (forall i :: 0 <= i < |before| ==> !IsNumeric(before[i]))
    && (before != [] && !neg ==> before[|before| - 1] != '-')
  }

  lemma {:induction false} SearchSkips(before: string, neg: bool, s: string)
    requires Precedes(before, neg) && s != [] && (if neg then s[0] == '-' else IsNumeric(s[0]))
    ensures Search(before + s) == Search(s)
  {
    if before == [] {
      assert before + s == s;
    } else {
      assert (before + s)[1..] == before[1..] + s;
      assert |before| > 1 ==> (before + s)[1] == before[1];
      assert |before| == 1 ==> (before + s)[1] == s[0];
      SearchSkips(before[1..], neg, s);
    }
  }

  /**
  The exact reading of any cleaned text whose first number is `token`: its digits, with as many
  decimals as stand after its comma, wherever its points stand; None exactly when it holds two commas
  or no digit.
  */
  lemma FirstNumberIsRead(before: string, neg: bool, token: string, after: string, text: string)
    requires Precedes(before, neg)
    requires AllNumeric(token) && token != [] && (after == [] || !IsNumeric(after[0]))
    requires Cleaned(text) == before + Signed(neg, token) + after
    ensures Parsed(Some(text)) == Meaning(neg, token)
    ensures Parsed(Some(text)).None?
            <==> CountOf(token, ',') > 1 || forall i :: 0 <= i < |token| ==> !IsDigit(token[i])
  {
    hide Search, Cleaned, Signed, ReadDecimal, Retoken, Meaning, CountOf, Digits, Precedes;
    FirstNumberIsFound(before, neg, token, after, Cleaned(text));
    SignedMeaning(neg, token);
    MeaninglessIff(neg, token);
  }

  lemma FirstNumberIsFound(before: string, neg: bool, token: string, after: string, cleaned: string)
    requires Precedes(before, neg)
    requires AllNumeric(token) && token != [] && (after == [] || !IsNumeric(after[0]))
    requires cleaned == before + Signed(neg, token) + after
    ensures Search(cleaned) == Some(Signed(neg, token))
  {
    hide Search, Signed, Precedes, AllNumeric;
    var found := Signed(neg, token);
    assert cleaned == before + (found + after);
    SignedStart(neg, token, after);
    SearchSkips(before, neg, found + after);
    SearchFinds(neg, token, after);
  }

  lemma SignedStart(neg: bool, token: string, after: string)
    requires AllNumeric(token) && token != []
    ensures var s := Signed(neg, token) + after; s != [] && if neg then s[0] == '-' else IsNumeric(s[0])
  {
  }

  /** Where the first number of a text stands: every text that holds a digit, a point or a comma has one. */
  lemma {:induction false} FirstNumber(s: string) returns (before: string, neg: bool, token: string, after: string)
    requires exists i :: 0 <= i < |s| && IsNumeric(s[i])
    ensures Precedes(before, neg) && AllNumeric(token) && token != [] && (after == [] || !IsNumeric(after[0]))
    ensures s == before + Signed(neg, token) + after
  {
    hide Signed, Precedes, AllNumeric;
    if IsNumeric(s[0]) {
      token, after := LongestRun(s);
      before, neg := [], false;
      NothingBefore(s, neg, token, after);
    } else if s[0] == '-' && |s| > 1 && IsNumeric(s[1]) {
      token, after := LongestRun(s[1..]);
      before, neg := [], true;
      NothingBefore(s, neg, token, after);
    } else {
      var i :| 0 <= i < |s| && IsNumeric(s[i]);
      assert s[1..][i - 1] == s[i];
      var later;
      later, neg, token, after := FirstNumber(s[1..]);
      before := [s[0]] + later;
      OneMoreBefore(s, later, neg, token, after);
    }
  }

  lemma NothingBefore(s: string, neg: bool, token: string, after: string)
    requires s == (if neg then ['-'] else []) + token + after
             || (neg && s != [] && s[0] == '-' && s[1..] == token + after)
    ensures Precedes([], neg) && s == [] + Signed(neg, token) + after
  {
  }

  lemma OneMoreBefore(s: string, later: string, neg: bool, token: string, after: string)
    requires s != [] && !IsNumeric(s[0]) && (s[0] == '-' && |s| > 1 ==> !IsNumeric(s[1]))
    requires Precedes(later, neg) && AllNumeric(token) && token != [] && s[1..] == later + Signed(neg, token) + after
    ensures Precedes([s[0]] + later, neg) && s == [s[0]] + later + Signed(neg, token) + after
  {
    hide AllNumeric;
    assert s == [s[0]] + s[1..];
    if later == [] && !neg {
      assert s[1] == token[0];
      FirstIsNumeric(token);
    }
  }

  lemma FirstIsNumeric(token: string)
    requires AllNumeric(token) && token != []
    ensures IsNumeric(token[0])
  {
  }

  lemma {:induction false} LongestRun(s: string) returns (run: string, rest: string)
    requires s != [] && IsNumeric(s[0])
    ensures AllNumeric(run) && run != [] && (rest == [] || !IsNumeric(rest[0])) && s == run + rest
  {
    if |s| == 1 || !IsNumeric(s[1]) {
      run, rest := s[..1], s[1..];
    } else {
      run, rest := LongestRun(s[1..]);
      run := [s[0]] + run;
    }
  }

  /** A text without any digit, point or comma is no number. */
  lemma {:induction false} NothingToSearch(s: string)
    ensures (forall i :: 0 <= i < |s| ==> !IsNumeric(s[i])) ==> Search(s) == None
  {
    if s == [] {
    } else {
      NothingToSearch(s[1..]);
    }
  }

  /** So every text has its reading: of its first number, or None when there is none. */
  lemma EveryTextIsRead(text: string) returns (before: string, neg: bool, token: string, after: string)
    ensures (forall i :: 0 <= i < |Cleaned(text)| ==> !IsNumeric(Cleaned(text)[i])) ==> Parsed(Some(text)) == None
    ensures (exists i :: 0 <= i < |Cleaned(text)| && IsNumeric(Cleaned(text)[i])) ==>
              && Precedes(before, neg) && AllNumeric(token) && token != []
              && Cleaned(text) == before + Signed(neg, token) + after && (after == [] || !IsNumeric(after[0]))
              && Parsed(Some(text)) == Meaning(neg, token)
  {
    hide Cleaned, Search, Meaning, ReadDecimal, Retoken, Signed, CountOf;
    before, neg, token, after := [], false, [], [];
    if exists i :: 0 <= i < |Cleaned(text)| && IsNumeric(Cleaned(text)[i]) {
      before, neg, token, after := FirstNumber(Cleaned(text));
      FirstNumberIsRead(before, neg, token, after, text);
    } else {
      NothingToSearch(Cleaned(text));
    }
  }

  lemma MeaninglessIff(neg: bool, token: string)
    requires AllNumeric(token)
    ensures Meaning(neg, token).None?
            <==> CountOf(token, ',') > 1 || forall i :: 0 <= i < |token| ==> !IsDigit(token[i])
  {
    hide CountOf, Digits, NatOf;
    NoDigitsIff(token);
  }

  lemma SearchFinds(neg: bool, token: string, after: string)
    requires AllNumeric(token) && token != [] && (after == [] || !IsNumeric(after[0]))
    ensures Search(Signed(neg, token) + after) == Some(Signed(neg, token))
  {
    hide NumericRun;
    RunStops(token, after);
    var s := Signed(neg, token) + after;
    if neg {
      assert s[1..] == token + after;
      assert s[1] == token[0];
    } else {
      assert s[0] == token[0];
    }
  }

  lemma SignedMeaning(neg: bool, token: string)
    requires AllNumeric(token)
    ensures ReadDecimal(Retoken(Signed(neg, token))) == Meaning(neg, token)
  {
    hide ReadDecimal, Retoken;
    RetokenMeaning(token);
    if neg {
      SignedRetoken(token);
      WithoutStart(token);
      UnsignedReading(Retoken(token));
    }
  }

  lemma WithoutStart(token: string)
    requires AllNumeric(token)
    ensures Retoken(token) == [] || Retoken(token)[0] != '-'
  {
    var w := Without(token, '.');
    WithoutKeeps(token, '.');
    if w != [] {
      assert w[0] in token;
    }
  }

  lemma {:induction false} NoDigitsIff(token: string)
    requires AllNumeric(token)
    ensures Digits(token) == [] <==> forall i :: 0 <= i < |token| ==> !IsDigit(token[i])
  {
    if token == [] {
    } else {
      assert AllNumeric(token[1..]);
      NoDigitsIff(token[1..]);
      WithoutConcat(if token[0] == '.' then [] else [token[0]], Without(token[1..], '.'), ',');
      assert forall i :: 1 <= i < |token| ==> token[i] == token[1..][i - 1];
    }
  }

  // ----- Round trip with the Spanish way of writing a number

  const SUFFIXES: seq<string> := ["", "\U{20AC}", " \U{20AC}", "m\U{B2}", " m\U{B2}", "m2", " m2"]

  /** Digits with a point before every third one from the right. */
  function Grouped(digits: string): string {
    if |digits| <= 3 then digits
    else Grouped(digits[..|digits| - 3]) + "." + digits[|digits| - 3..]
  }

  function Rendered(n: nat, decimals: string): string {
    Grouped(DigitsOf(n)) + if decimals == [] then "" else "," + decimals
  }

  lemma RemovedSkips(before: string, s: string, pattern: string)
    requires pattern != [] && pattern[0] !in before
    ensures Removed(before + s, pattern) == before + Removed(s, pattern)
  {
    hide Removed;
    forall i | 0 <= i < |before|
      ensures !(pattern <= (before + s)[i..])
    {
      assert (before + s)[i..][0] == before[i];
    }
    RemovedBehind(before, s, pattern);
  }

  lemma {:induction false} RemovedAllSkips(before: string, s: string, n: nat)
    requires n <= |STRIP| && (forall i :: 0 <= i < |before| ==> before[i] == '-' || IsNumeric(before[i]))
    ensures RemovedAll(before + s, n) == before + RemovedAll(s, n)
  {
    if n == 0 {
    } else {
      RemovedAllSkips(before, s, n - 1);
      RemovedSkips(before, RemovedAll(s, n - 1), STRIP[n - 1]);
    }
  }

  lemma RemovedAbsent(s: string, pattern: string)
    requires pattern != [] && pattern[0] !in s
    ensures Removed(s, pattern) == s
  {
    assert Removed([], pattern) == [];
    hide Removed;
    RemovedSkips(s, [], pattern);
    assert s + [] == s;
  }

  lemma RemovedAtEnd(before: string, pattern: string)
    requires pattern != [] && pattern[0] !in before
    ensures Removed(before + pattern, pattern) == before
  {
    assert pattern[|pattern|..] == [];
    assert Removed(pattern, pattern) == [];
    hide Removed;
    RemovedSkips(before, pattern, pattern);
    assert before + [] == before;
  }

  /** The unit m2 shares its first letter with the unit m², and is not touched by its removal. */
  lemma OtherUnitStays(before: string)
    requires 'm' !in before
    ensures Removed(before + "m2", "m\U{B2}") == before + "m2"
  {
    assert "m2"[1..] == "2";
    assert Removed("2", "m\U{B2}") == "2";
    assert "m2"[..2][1] != "m\U{B2}"[1];
    assert Removed("m2", "m\U{B2}") == "m2";
    hide Removed;
    RemovedSkips(before, "m2", "m\U{B2}");
  }

  lemma SuffixVanishes(k: nat)
    requires k < |SUFFIXES|
    ensures RemovedAll(SUFFIXES[k], |STRIP|) == if k % 2 == 0 && k > 0 then " " else ""
  {
    hide Removed, RemovedAll;
    var blank := if k % 2 == 0 && k > 0 then " " else "";
    var s := SUFFIXES[k];
    RemovedAllIs(s);
    if k == 1 || k == 2 {
      assert s == blank + STRIP[0];
      RemovedAtEnd(blank, STRIP[0]);
      RemovedAbsent(blank, STRIP[1]);
      RemovedAbsent(blank, STRIP[2]);
      RemovedAbsent(blank, STRIP[3]);
    } else {
      RemovedAbsent(s, STRIP[0]);
      RemovedAbsent(s, STRIP[1]);
      if k == 3 || k == 4 {
        assert s == blank + STRIP[2];
        RemovedAtEnd(blank, STRIP[2]);
        RemovedAbsent(blank, STRIP[3]);
      } else if k == 0 {
        RemovedAbsent(s, STRIP[2]);
        RemovedAbsent(s, STRIP[3]);
      } else {
        assert s == blank + STRIP[3];
        OtherUnitStays(blank);
        RemovedAtEnd(blank, STRIP[3]);
      }
    }
  }

  lemma RemovedAllIs(s: string)
    ensures RemovedAll(s, |STRIP|)
            == Removed(Removed(Removed(Removed(s, STRIP[0]), STRIP[1]), STRIP[2]), STRIP[3])
  {
    hide Removed;
    assert RemovedAll(s, 1) == Removed(RemovedAll(s, 0), STRIP[0]);
    assert RemovedAll(s, 2) == Removed(RemovedAll(s, 1), STRIP[1]);
    assert RemovedAll(s, 3) == Removed(RemovedAll(s, 2), STRIP[2]);
  }

  lemma StripsOneSpace(number: string)
    requires number != [] && !Texts.IsSpace(number[0]) && !Texts.IsSpace(number[|number| - 1])
    ensures Texts.Strip(number) == number && Texts.Strip(number + " ") == number
  {
    var left := number + " ";
    assert left[0] == number[0];
    assert Texts.StripLeft(left) == left;
    assert left[..|left| - 1] == number;
    assert Texts.StripRight(number) == number;
  }

  lemma NumberThenSuffix(neg: bool, token: string, k: nat)
    requires AllNumeric(token) && token != [] && k < |SUFFIXES|
    ensures Cleaned(Signed(neg, token) + SUFFIXES[k]) == Signed(neg, token)
  {
    var number := Signed(neg, token);
    RemovedAllSkips(number, SUFFIXES[k], |STRIP|);
    SuffixVanishes(k);
    StripsOneSpace(number);
    assert number + "" == number;
  }

  lemma WithoutPoint(a: string, b: string)
    ensures Without(a + "." + b, '.') == Without(a, '.') + Without(b, '.')
  {
    assert Without(".", '.') == "";
    hide Without;
    WithoutConcat(a + ".", b, '.');
    WithoutConcat(a, ".", '.');
  }

  predicate DigitOrPoint(c: char) {
    IsDigit(c) || c == '.'
  }

  lemma {:induction false} GroupedIsPlain(digits: string)
    requires AllDigits(digits)
    ensures forall i :: 0 <= i < |Grouped(digits)| ==> DigitOrPoint(Grouped(digits)[i])
    ensures digits != [] ==> Grouped(digits) != []
  {
    if |digits| > 3 {
      GroupedIsPlain(digits[..|digits| - 3]);
    }
  }

  lemma {:induction false} UngroupedDigits(digits: string)
    requires AllDigits(digits)
    ensures Without(Grouped(digits), '.') == digits
  {
    if |digits| <= 3 {
      WithoutAbsent(digits, '.');
    } else {
      var high, low := digits[..|digits| - 3], digits[|digits| - 3..];
      UngroupedDigits(high);
      WithoutPoint(Grouped(high), low);
      WithoutAbsent(low, '.');
      assert digits == high + low;
    }
  }

  lemma GroupedReads(digits: string)
    requires AllDigits(digits)
    ensures AllNumeric(Grouped(digits)) && ',' !in Grouped(digits) && Digits(Grouped(digits)) == digits
    ensures digits != [] ==> Grouped(digits) != []
  {
    hide Grouped, Without;
    GroupedIsPlain(digits);
    UngroupedDigits(digits);
    WithoutAbsent(digits, ',');
  }

  lemma PlainDigitsRead(digits: string)
    requires AllDigits(digits)
    ensures Digits(digits) == digits && CountOf(digits, ',') == 0
  {
    WithoutAbsent(digits, '.');
    WithoutAbsent(digits, ',');
    CountZeroIffAbsent(digits, ',');
  }

  lemma WholeMeaning(neg: bool, digits: string)
    requires AllDigits(digits) && digits != []
    ensures AllNumeric(Grouped(digits)) && Meaning(neg, Grouped(digits)) == Some(Decimal(neg, NatOf(digits), 0))
  {
    hide Grouped, Digits, NatOf, CountOf, Texts.Partition;
    GroupedReads(digits);
    CountZeroIffAbsent(Grouped(digits), ',');
    Texts.PartitionNowhere(Grouped(digits), ',');
  }

  lemma FractionMeaning(neg: bool, digits: string, decimals: string)
    requires AllDigits(digits) && AllDigits(decimals) && digits != []
    ensures AllNumeric(Grouped(digits)) && AllNumeric(Grouped(digits) + [','] + decimals)
    ensures AllDigits(digits + decimals)
    ensures Meaning(neg, Grouped(digits) + [','] + decimals)
            == Some(Decimal(neg, NatOf(digits + decimals), -|decimals|))
  {
    hide Grouped, Digits, NatOf, CountOf, Meaning;
    GroupedReads(digits);
    PlainDigitsRead(decimals);
    MeaningWithComma(neg, Grouped(digits), decimals);
  }

  lemma RenderedDigits(n: nat, decimals: string)
    requires AllDigits(decimals)
    ensures AllDigits(DigitsOf(n) + decimals)
    ensures NatOf(DigitsOf(n) + decimals) == n * Pow10(|decimals|) + NatOf(decimals)
  {
    hide NatOf, DigitsOf, Pow10;
    NatOfDigitsOf(n);
    NatOfConcat(DigitsOf(n), decimals);
  }

  lemma RenderedMeaning(neg: bool, n: nat, decimals: string)
    requires AllDigits(decimals)
    ensures AllNumeric(Rendered(n, decimals)) && Rendered(n, decimals) != []
    ensures AllDigits(DigitsOf(n) + decimals)
    ensures Meaning(neg, Rendered(n, decimals)) == Some(Decimal(neg, NatOf(DigitsOf(n) + decimals), -|decimals|))
  {
    hide DigitsOf, Grouped, Meaning, NatOf;
    var digits := DigitsOf(n);
    GroupedReads(digits);
    if decimals == [] {
      WholeMeaning(neg, digits);
      assert Rendered(n, decimals) == Grouped(digits);
      assert digits + decimals == digits;
    } else {
      FractionMeaning(neg, digits, decimals);
      assert Rendered(n, decimals) == Grouped(digits) + [','] + decimals;
    }
  }

  /** A number in Spanish notation, with an optional minus sign and one of the units. */
  function Written(neg: bool, n: nat, decimals: string, k: nat): string
    requires k < |SUFFIXES|
  {
    Signed(neg, Rendered(n, decimals)) + SUFFIXES[k]
  }

  function NumberOf(neg: bool, n: nat, decimals: string): Decimal
    requires AllDigits(decimals)
  {
    Decimal(neg, n * Pow10(|decimals|) + NatOf(decimals), -|decimals|)
  }

  /**
  Reading undoes writing: a natural number in Spanish notation, with any decimal digits, an optional
  minus sign and an optional unit, is read as exactly that number.
  */
  lemma RoundTrip(neg: bool, n: nat, decimals: string, k: nat)
    requires AllDigits(decimals) && k < |SUFFIXES|
    ensures Parsed(Some(Written(neg, n, decimals, k))) == Some(NumberOf(neg, n, decimals))
  {
    hide DigitsOf, Rendered, Cleaned, Meaning, Parsed, Pow10, NatOf, Signed, AllDigits, AllNumeric;
    var token := Rendered(n, decimals);
    RenderedMeaning(neg, n, decimals);
    RenderedDigits(n, decimals);
    NumberThenSuffix(neg, token, k);
    WholeTextIsRead(neg, token, Signed(neg, token) + SUFFIXES[k]);
  }

  lemma WholeTextIsRead(neg: bool, token: string, text: string)
    requires AllNumeric(token) && token != [] && Cleaned(text) == Signed(neg, token)
    ensures Parsed(Some(text)) == Meaning(neg, token)
  {
    hide Cleaned, Meaning, Parsed, Signed;
    assert Signed(neg, token) == [] + Signed(neg, token) + [];
    FirstNumberIsRead([], neg, token, [], text);
  }

  /** Both value objects keep what was written, and refuse exactly what their constructors refuse. */
  lemma MoneyAndAreaRoundTrip(neg: bool, n: nat, decimals: string, k: nat)
    requires AllDigits(decimals) && k < |SUFFIXES|
    ensures var text, number := Some(Written(neg, n, decimals, k)), NumberOf(neg, n, decimals);
            && ParseMoney(text) == (if neg && (n > 0 || NatOf(decimals) > 0) then None else Some(number))
            && ParseArea(text) == (if neg || (n == 0 && NatOf(decimals) == 0) then None else Some(number))
  {
    hide *;
    RoundTrip(neg, n, decimals, k);
    NumberSign(neg, n, decimals);
    MoneyAndAreaOf(Some(Written(neg, n, decimals, k)), NumberOf(neg, n, decimals));
  }

  lemma NumberSign(neg: bool, n: nat, decimals: string)
    requires AllDigits(decimals)
    ensures NumberOf(neg, n, decimals).neg == neg
    ensures NumberOf(neg, n, decimals).coeff == 0 <==> n == 0 && NatOf(decimals) == 0
  {
    hide NatOf, Pow10;
    PositiveProduct(n, Pow10(|decimals|));
  }

  lemma MoneyAndAreaOf(text: Option<string>, d: Decimal)
    requires Parsed(text) == Some(d)
    ensures ParseMoney(text) == if d.neg && d.coeff > 0 then None else Some(d)
    ensures ParseArea(text) == if d.neg || d.coeff == 0 then None else Some(d)
  {
    hide Parsed, Value;
    ValueSign(d);
  }

  lemma PositiveProduct(n: nat, p: nat)
    requires 1 <= p
    ensures n * p == 0 <==> n == 0
  {
  }

  // ----- Whole numbers

  function DigitRun(s: string): (run: string)
    ensures AllDigits(run)
  {
    if s != [] && IsDigit(s[0]) then [s[0]] + DigitRun(s[1..]) else []
  }

  /** The leftmost, longest match of the expression `\d+`. */
  function FirstDigits(s: string): (run: Option<string>)
    ensures run.Some? ==> AllDigits(run.value) && run.value != []
  {
    if s == [] then None else if IsDigit(s[0]) then Some(DigitRun(s)) else FirstDigits(s[1..])
  }

  function ParseInt(text: Option<string>): Option<nat> {
    match text
    case None => None
    case Some(t) => match FirstDigits(Cleaned(t)) case None => None case Some(run) => Some(NatOf(run))
  }

  lemma {:induction false} FirstDigitsSkip(before: string, s: string)
    requires forall i :: 0 <= i < |before| ==> !IsDigit(before[i])
    ensures FirstDigits(before + s) == FirstDigits(s)
  {
    if before == [] {
      assert before + s == s;
    } else {
      assert (before + s)[1..] == before[1..] + s;
      FirstDigitsSkip(before[1..], s);
    }
  }

  lemma {:induction false} DigitRunStops(digits: string, after: string)
    requires AllDigits(digits) && (after == [] || !IsDigit(after[0]))
    ensures DigitRun(digits + after) == digits
  {
    if digits == [] {
      assert digits + after == after;
    } else {
      assert (digits + after)[1..] == digits[1..] + after;
      DigitRunStops(digits[1..], after);
    }
  }

  /** A count is the first run of digits in a text, and there is none in a text without digits. */
  lemma FirstCountIsRead(before: string, digits: string, after: string, text: string)
    requires (forall i :: 0 <= i < |before| ==> !IsDigit(before[i])) && AllDigits(digits)
    requires after == [] || !IsDigit(after[0])
    requires Cleaned(text) == before + digits + after && (digits == [] ==> after == [])
    ensures ParseInt(Some(text)) == if digits == [] then None else Some(NatOf(digits))
  {
    hide Cleaned, NatOf;
    assert before + digits + after == before + (digits + after);
    FirstDigitsSkip(before, digits + after);
    DigitRunStops(digits, after);
    if digits == [] {
      assert digits + after == [];
    } else {
      assert (digits + after)[0] == digits[0];
    }
  }

  lemma {:induction false} NatIsBelowPower(digits: string)
    requires AllDigits(digits)
    ensures NatOf(digits) < Pow10(|digits|)
  {
    if digits == [] {
    } else {
      NatIsBelowPower(digits[..|digits| - 1]);
    }
  }

  lemma {:induction false} LongIffThousands(n: nat)
    ensures n < 1000 <==> |DigitsOf(n)| <= 3
  {
    if n >= 10 {
      if n / 10 >= 10 {
        assert |DigitsOf(n)| == |DigitsOf(n / 10 / 10)| + 2;
      }
    }
  }

  /** The digits before the first point of a grouped number; all of them when there is none. */
  lemma {:induction false} FirstGroup(digits: string) returns (group: string, rest: string)
    requires AllDigits(digits) && digits != []
    ensures AllDigits(group) && 1 <= |group| <= 3 && Grouped(digits) == group + rest
    ensures rest == [] || !IsDigit(rest[0])
    ensures |digits| <= 3 ==> group == digits
  {
    hide Grouped;
    if |digits| <= 3 {
      group, rest := digits, [];
      GroupedShort(digits);
      assert group + rest == digits;
    } else {
      var high, tail := digits[..|digits| - 3], "." + digits[|digits| - 3..];
      var before;
      group, before := FirstGroup(high);
      rest := before + tail;
      GroupedStep(digits);
      assert group + before + tail == group + rest;
    }
  }

  lemma GroupedShort(digits: string)
    requires |digits| <= 3
    ensures Grouped(digits) == digits
  {
  }

  lemma GroupedStep(digits: string)
    requires |digits| > 3
    ensures Grouped(digits) == Grouped(digits[..|digits| - 3]) + ("." + digits[|digits| - 3..])
  {
  }

  lemma PowersGrow(k: nat)
    requires k <= 3
    ensures Pow10(k) <= 1000
  {
    assert Pow10(3) == 10 * Pow10(2) == 100 * Pow10(1);
  }

  /**
  A count is read up to its first point only: a natural number with points between its thousands is
  read as itself exactly when it is below one thousand.
  */
  lemma CountIsReadIffSmall(before: string, n: nat, after: string, text: string)
    requires forall i :: 0 <= i < |before| ==> !IsDigit(before[i])
    requires after == [] || !IsDigit(after[0])
    requires Cleaned(text) == before + Grouped(DigitsOf(n)) + after
    ensures ParseInt(Some(text)).Some? && (ParseInt(Some(text)) == Some(n) <==> n < 1000)
  {
    hide Cleaned, Grouped, DigitsOf, NatOf, Pow10, FirstDigits;
    var group, rest := FirstGroup(DigitsOf(n));
    assert Cleaned(text) == before + (group + (rest + after));
    FirstDigitsSkip(before, group + (rest + after));
    FirstDigitsAt(group, rest + after);
    NatIsBelowPower(group);
    PowersGrow(|group|);
    LongIffThousands(n);
    NatOfDigitsOf(n);
  }

  lemma FirstDigitsAt(group: string, rest: string)
    requires AllDigits(group) && group != [] && (rest == [] || !IsDigit(rest[0]))
    ensures FirstDigits(group + rest) == Some(group)
  {
    DigitRunStops(group, rest);
    assert (group + rest)[0] == group[0];
  }
}

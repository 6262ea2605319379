/**
 * The phone-number search of the reservations service: the query key is the
 * input with every non-digit removed, each stored number is compared with
 * `(`, `)`, `.`, space and `-` translated away, a row matches when the
 * stored number is `LIKE '%' || key || '%'`, and the matches come back
 * ordered by reservation date.
 */
module ReservationsService {
  import opened Middleware
  import opened Text
  import opened Sorting
  import opened Reservations

  /** `input.replace(/\D/g, "")`: the digits of the input, in order. */
  function SearchKey(input: string): (k: string)
    ensures forall i :: 0 <= i < |k| ==> IsDigit(k[i])
  {
    Filter(input, IsDigit)
  }

  /** The characters `translate(mobile_number, '(). -', '')` deletes. */
  const Punctuation: string := "(). -"

  predicate Kept(c: char) {
    c !in Punctuation
  }

  /** `translate(stored, '(). -', '')`: the stored number without punctuation. */
  function StripPunctuation(stored: string): (s: string)
    ensures forall i :: 0 <= i < |s| ==> s[i] !in Punctuation
  {
    Filter(stored, Kept)
  }

  /** The key holds each digit of the input as often as the input does, and nothing else. */
  lemma SearchKeyCount(input: string, c: char)
    ensures multiset(SearchKey(input))[c] == if IsDigit(c) then multiset(input)[c] else 0
  {
    FilterCount(input, IsDigit, c);
  }

  /** The key of a concatenation is the concatenation of the keys, so order is kept. */
  lemma SearchKeyAppend(a: string, b: string)
    ensures SearchKey(a + b) == SearchKey(a) + SearchKey(b)
  {
    FilterAppend(a, b, IsDigit);
  }

  /** An input that is all digits is its own key; in particular taking the key twice changes nothing. */
  lemma SearchKeyOfDigits(input: string)
    requires forall i :: 0 <= i < |input| ==> IsDigit(input[i])
    ensures SearchKey(input) == input
    ensures SearchKey(SearchKey(input)) == SearchKey(input)
  {
    FilterAll(input, IsDigit);
  }

  /** The stored number keeps every other character as often as it occurs. */
  lemma StripPunctuationCount(stored: string, c: char)
    ensures multiset(StripPunctuation(stored))[c] == if c in Punctuation then 0 else multiset(stored)[c]
  {
    FilterCount(stored, Kept, c);
  }

  /**
   * `t LIKE p` in PostgreSQL: `%` matches any run of characters, `_` any one
   * character, a backslash makes the next character literal, and anything
   * else matches itself.
   */
  function Like(t: string, p: string): bool
    decreases |p|, |t|
  {
    if p == [] then t == []
    else if p[0] == '%' then Like(t, p[1..]) || (t != [] && Like(t[1..], p))
    else if p[0] == '\\' && |p| > 1 then t != [] && t[0] == p[1] && Like(t[1..], p[2..])
    else t != [] && (p[0] == '_' || t[0] == p[0]) && Like(t[1..], p[1..])
  }

  /** A pattern piece with no wildcard and no escape: it matches only itself. */
  predicate Literal(k: string) {
    forall i :: 0 <= i < |k| ==> k[i] != '%' && k[i] != '_' && k[i] != '\\'
  }

  lemma {:induction false} LikeLiteralPrefix(t: string, k: string, rest: string)
    requires Literal(k)
    ensures Like(t, k + rest) <==> |k| <= |t| && t[..|k|] == k && Like(t[|k|..], rest)
  {
    if k == [] {
      assert k + rest == rest;
    } else {
      assert (k + rest)[0] == k[0];
      assert (k + rest)[1..] == k[1..] + rest;
      if t != [] {
        LikeLiteralPrefix(t[1..], k[1..], rest);
        if |k| <= |t| {
          assert t[1..][|k| - 1..] == t[|k|..];
          assert t[..|k|] == [t[0]] + t[1..][..|k| - 1];
          assert k == [k[0]] + k[1..];
        }
      }
    }
  }

  lemma {:induction false} LikePercentAll(t: string)
    ensures Like(t, "%")
  {
    if t != [] {
      LikePercentAll(t[1..]);
    }
  }

  /** `t` matches `p` once its first `i` characters are skipped. */
  predicate LikeFrom(t: string, p: string, i: int) {
    0 <= i <= |t| && Like(t[i..], p)
  }

  lemma {:induction false} LikeLeadingPercent(t: string, q: string)
    ensures Like(t, "%" + q) <==> exists i :: LikeFrom(t, q, i)
  {
    assert ("%" + q)[0] == '%' && ("%" + q)[1..] == q;
    assert LikeFrom(t, q, 0) <==> Like(t, q) by { assert t[0..] == t; }
    if t != [] {
      LikeLeadingPercent(t[1..], q);
      if exists i :: LikeFrom(t[1..], q, i) {
        var i :| LikeFrom(t[1..], q, i);
        assert t[1..][i..] == t[i + 1..];
        assert LikeFrom(t, q, i + 1);
      }
      if exists i :: LikeFrom(t, q, i) {
        var i :| LikeFrom(t, q, i);
        if i > 0 {
          assert t[1..][i - 1..] == t[i..];
          assert LikeFrom(t[1..], q, i - 1);
        }
      }
    } else {
      if exists i :: LikeFrom(t, q, i) {
        var i :| LikeFrom(t, q, i);
        assert i == 0;
      }
    }
  }

  /** For a key without wildcards, `t LIKE '%key%'` holds exactly when the key occurs in `t`. */
  lemma LikeContains(t: string, k: string)
    requires Literal(k)
    ensures Like(t, "%" + k + "%") <==> IsSubstring(k, t)
  {
    assert "%" + k + "%" == "%" + (k + "%");
    LikeLeadingPercent(t, k + "%");
    forall i | 0 <= i <= |t|
      ensures LikeFrom(t, k + "%", i) <==> OccursAt(k, t, i)
    {
      LikeLiteralPrefix(t[i..], k, "%");
      if i + |k| <= |t| {
        LikePercentAll(t[i..][|k|..]);
        assert t[i..][..|k|] == t[i..i + |k|];
      }
    }
    if IsSubstring(k, t) {
      var i :| 0 <= i <= |t| - |k| && OccursAt(k, t, i);
      assert LikeFrom(t, k + "%", i);
    }
  }

  /**
   * The `WHERE` clause of the search: the row has a number, and the number
   * without punctuation is `LIKE '%key%'` (a NULL number never matches).
   */
  predicate Matches(r: Reservation, input: string) {
    r.mobile_number.Some? &&
    Like(StripPunctuation(r.mobile_number.value), "%" + SearchKey(input) + "%")
  }

  /** A row matches exactly when its number, without punctuation, contains the key. */
  lemma MatchesIff(r: Reservation, input: string)
    ensures Matches(r, input) <==>
      r.mobile_number.Some? && IsSubstring(SearchKey(input), StripPunctuation(r.mobile_number.value))
  {
    if r.mobile_number.Some? {
      LikeContains(StripPunctuation(r.mobile_number.value), SearchKey(input));
    }
  }

  /** An input with no digit gives the empty key, which matches every row that has a number. */
  lemma EmptyKeyMatchesAll(r: Reservation, input: string)
    requires forall i :: 0 <= i < |input| ==> !IsDigit(input[i])
    requires r.mobile_number.Some?
    ensures Matches(r, input)
  {
    FilterNone(input, IsDigit);
    MatchesIff(r, input);
    assert OccursAt(SearchKey(input), StripPunctuation(r.mobile_number.value), 0);
  }

  lemma DashedKey(a: string, b: string)
    requires forall i :: 0 <= i < |a| ==> IsDigit(a[i])
    requires forall i :: 0 <= i < |b| ==> IsDigit(b[i])
    ensures SearchKey(a + "-" + b) == a + b
  {
    var dash := "-";
    assert !IsDigit(dash[0]);
    FilterNone(dash, IsDigit);
    SearchKeyAppend(a, dash);
    SearchKeyOfDigits(a);
    assert SearchKey(a + dash) == a;
    SearchKeyAppend(a + dash, b);
    SearchKeyOfDigits(b);
  }

  lemma ParenthesisedStripped(a: string, b: string)
    requires forall i :: 0 <= i < |a| ==> IsDigit(a[i])
    requires forall i :: 0 <= i < |b| ==> IsDigit(b[i])
    ensures StripPunctuation("(" + a + ") " + b) == a + b
  {
    var open, close := "(", ") ";
    assert !Kept(open[0]) && !Kept(close[0]) && !Kept(close[1]);
    FilterNone(open, Kept);
    FilterNone(close, Kept);
    FilterAll(a, Kept);
    FilterAll(b, Kept);
    FilterAppend(open, a, Kept);
    assert StripPunctuation(open + a) == a;
    FilterAppend(open + a, close, Kept);
    assert StripPunctuation(open + a + close) == a;
    FilterAppend(open + a + close, b, Kept);
  }

  /**
   * A number typed with a dash, `a-b`, finds the same digits stored with
   * parentheses and a space, `(a) b` (for instance "555-0100" finds "(555) 0100").
   */
  lemma DashedInputFindsParenthesisedNumber(r: Reservation, a: string, b: string)
    requires forall i :: 0 <= i < |a| ==> IsDigit(a[i])
    requires forall i :: 0 <= i < |b| ==> IsDigit(b[i])
    requires r.mobile_number == Some("(" + a + ") " + b)
    ensures Matches(r, a + "-" + b)
  {
    DashedKey(a, b);
    ParenthesisedStripped(a, b);
    MatchesIff(r, a + "-" + b);
    assert OccursAt(a + b, a + b, 0);
  }

  function DateKey(r: Reservation): string {
    r.reservation_date.GetOr("")
  }

  predicate Dated(r: Reservation) {
    r.reservation_date.Some?
  }

  /**
   * The rows the search returns: those that match, ordered by
   * `ORDER BY reservation_date` ascending. Dates are `YYYY-MM-DD`, so text
   * order is date order; rows without a date come last, where PostgreSQL
   * puts nulls in an ascending sort.
   */
  function Search(rows: seq<Reservation>, input: string): (found: seq<Reservation>)
    ensures forall i, j :: 0 <= i < j < |found| && Dated(found[j]) ==>
      Dated(found[i]) && Compare(found[i].reservation_date.value, found[j].reservation_date.value) <= 0
    ensures forall r :: multiset(found)[r] == if Matches(r, input) then multiset(rows)[r] else 0
  {
    var keep := (r: Reservation) => Matches(r, input);
    var found := SortByNullsLast(Filter(rows, keep), Dated, DateKey);
    forall r ensures multiset(found)[r] == if Matches(r, input) then multiset(rows)[r] else 0 {
      FilterCount(rows, keep, r);
    }
    found
  }
}

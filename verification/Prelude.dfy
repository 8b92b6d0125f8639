/** Types and sequence facts shared by every module. */
module Prelude {
  datatype Option<+T> = None | Some(value: T)

  datatype Result<+T, +E> = Ok(value: T) | Err(error: E)

  const U64_MAX: nat := 0xFFFF_FFFF_FFFF_FFFF

  /** The wire counters and clocks are 64-bit; arithmetic on them is always checked. */
  type u64 = x: int | 0 <= x <= 0xFFFF_FFFF_FFFF_FFFF

  function CheckedAdd(a: u64, b: u64): Option<u64> {
    if a + b <= U64_MAX then Some(a + b) else None
  }

  /** The newest `n` elements of a sequence. */
  function LastN<T>(s: seq<T>, n: nat): seq<T> {
    if |s| <= n then s else s[|s| - n..]
  }

  /** Pushing onto a bounded deque after dropping its front keeps the newest elements. */
  lemma PushKeepsLastN<T>(s: seq<T>, n: nat, x: T)
    requires n > 0
    ensures var d := LastN(s, n);
            LastN(s + [x], n) == (if |d| == n then d[1..] else d) + [x]
  {
    var d := LastN(s, n);
    if |s| < n {
    } else if |s| == n {
      assert (s + [x])[1..] == s[1..] + [x];
    } else {
      assert (s + [x])[|s| + 1 - n..] == s[|s| + 1 - n..] + [x];
      assert d[1..] == s[|s| + 1 - n..];
    }
  }

  // ----- decimal text -----

  function Digit(d: nat): char
    requires d < 10
  {
    "0123456789"[d]
  }

  function Digits(n: nat): string {
    if n < 10 then [Digit(n)] else Digits(n / 10) + [Digit(n % 10)]
  }

  lemma {:induction false} DigitsAreInjective(a: nat, b: nat)
    requires Digits(a) == Digits(b)
    ensures a == b
    decreases a
  {
    hide Digits, Digit;
    DigitsEnd(a);
    DigitsEnd(b);
    DigitIsInjective(a % 10, b % 10);
    if a >= 10 && b >= 10 {
      DigitsAreInjective(a / 10, b / 10);
    }
  }

  lemma DigitsEnd(n: nat)
    ensures Digits(n) != [] && Digits(n)[|Digits(n)| - 1] == Digit(n % 10)
    ensures n >= 10 ==> Digits(n)[..|Digits(n)| - 1] == Digits(n / 10)
    ensures |Digits(n)| == 1 <==> n < 10
  {
    DigitsNonEmpty(n / 10);
  }

  lemma DigitIsInjective(a: nat, b: nat)
    requires a < 10 && b < 10 && Digit(a) == Digit(b)
    ensures a == b
  {
    assert forall i, j :: 0 <= i < j < 10 ==> "0123456789"[i] != "0123456789"[j];
  }

  lemma DigitsNonEmpty(n: nat)
    ensures Digits(n) != []
  {
  }

  // ----- text order -----

  /** Comparison of two texts, character by character. */
  predicate TextBelow(a: string, b: string) {
    if b == "" then false
    else if a == "" then true
    else a[0] < b[0] || (a[0] == b[0] && TextBelow(a[1..], b[1..]))
  }

  lemma {:induction false} TextBelowIsTotal(a: string, b: string)
    ensures a != b ==> (TextBelow(a, b) <==> !TextBelow(b, a))
    ensures !TextBelow(a, a)
    decreases |a|
  {
    if a != "" && b != "" {
      TextBelowIsTotal(a[1..], b[1..]);
      assert a == [a[0]] + a[1..] && b == [b[0]] + b[1..];
    }
    if a != "" {
      TextBelowIsTotal(a[1..], a[1..]);
    }
  }

  lemma {:induction false} TextBelowIsTransitive(a: string, b: string, c: string)
    requires TextBelow(a, b) && TextBelow(b, c)
    ensures TextBelow(a, c)
    decreases |a|
  {
    if a != "" && a[0] == b[0] == c[0] {
      TextBelowIsTransitive(a[1..], b[1..], c[1..]);
    }
  }

  predicate LeastText(texts: set<string>, least: string) {
    least in texts && forall t :: t in texts && t != least ==> TextBelow(least, t)
  }

  lemma {:induction false} SomeTextIsLeast(texts: set<string>) returns (least: string)
    requires texts != {}
    ensures LeastText(texts, least)
    decreases |texts|
  {
    hide TextBelow;
    var t :| t in texts;
    var rest := texts - {t};
    if rest == {} {
      assert texts == {t};
      least := t;
    } else {
      var other := SomeTextIsLeast(rest);
      TextBelowIsTotal(t, other);
      least := if TextBelow(t, other) then t else other;
      forall u | u in texts && u != least ensures TextBelow(least, u) {
        if u in rest && u != other && least == t {
          TextBelowIsTransitive(t, other, u);
        }
      }
    }
  }

  // ----- logs of answers, one sequence per caller -----

  function Appended<K(==), A>(log: map<K, seq<A>>, key: K, entry: A): map<K, seq<A>> {
    log[key := (if key in log then log[key] else []) + [entry]]
  }

  /** Each of these keys gets the same one more entry. */
  function AppendedAll<K(==), A>(log: map<K, seq<A>>, keys: set<K>, entry: A): map<K, seq<A>> {
    map k | k in log.Keys + keys ::
      (if k in log then log[k] else []) + (if k in keys then [entry] else [])
  }

  lemma OneMoreAppended<K, A>(log: map<K, seq<A>>, keys: set<K>, key: K, entry: A)
    requires key !in keys
    ensures Appended(AppendedAll(log, keys, entry), key, entry) == AppendedAll(log, keys + {key}, entry)
  {
    var so := if key in log then log[key] else [];
    assert so + [] == so;
    var one := Appended(AppendedAll(log, keys, entry), key, entry);
    var two := AppendedAll(log, keys + {key}, entry);
    assert one.Keys == two.Keys;
    assert forall k :: k in one ==> one[k] == two[k];
  }

  lemma NoneAppended<K, A>(log: map<K, seq<A>>, entry: A)
    ensures AppendedAll(log, {}, entry) == log
  {
    assert forall k :: k in log ==> log[k] + [] == log[k];
  }
}

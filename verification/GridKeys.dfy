/** The text of a grid key (GridKey in backend/internal/cache/redis.go): the printed components
    separated by colons. */
module GridKeys {
  import opened Nearby

  function Digit(d: nat): char
    requires d < 10
  {
    (d + '0' as int) as char
  }

  /** %d for the radius, which is positive once normalized. */
  function Decimal(n: nat): (s: string)
    ensures s != "" && forall c :: c in s ==> '0' <= c <= '9'
  {
    if n < 10 then [Digit(n)] else Decimal(n / 10) + [Digit(n % 10)]
  }

  function Value(s: string): int
  {
    if s == "" then 0 else Value(s[..|s| - 1]) * 10 + (s[|s| - 1] as int - '0' as int)
  }

  lemma {:induction false} ValueOfDecimal(n: nat)
    ensures Value(Decimal(n)) == n
  {
    if n < 10 {
      assert [Digit(n)][..0] == "";
    } else {
      ValueOfDecimal(n / 10);
      var s := Decimal(n / 10);
      assert (s + [Digit(n % 10)])[..|s|] == s;
    }
  }

  predicate NoColon(s: string) { ':' !in s }

  /** fmt.Sprintf("grid:%.3f:%.3f:%d:%s", ...) */
  function Text(key: Key): string
    requires key.radius >= 0
  {
    "grid:" + key.lat + ":" + key.lng + ":" + Decimal(key.radius) + ":" + key.uid
  }

  /** The text under which a query is stored; InvalidateZone's pattern "grid:*" matches it. */
  lemma TextOfQuery(w: World, q: Query)
    requires WellFormed(q.user) && q.radius >= 0
    ensures Text(GridKey(w, q)) == "grid:" + w.fmt3(q.lat) + ":" + w.fmt3(q.lng) + ":" + Decimal(q.radius) + ":"
                                   + (if q.user == "" then "anon" else q.user[..8])
    ensures "grid:" <= Text(GridKey(w, q))
  {
  }

  /** A first field without a colon can be read back. */
  lemma SplitAtColon(a: string, a': string, b: string, b': string)
    requires NoColon(a) && NoColon(a') && a + ":" + b == a' + ":" + b'
    ensures a == a' && b == b'
  {
    var s := a + ":" + b;
    assert s[|a|] == ':' && s[|a'|] == ':';
    assert forall i :: 0 <= i < |a| ==> s[i] == a[i];
    assert forall i :: 0 <= i < |a'| ==> s[i] == a'[i];
    assert |a| == |a'|;
    assert a == s[..|a|] == a';
    assert b == s[|a| + 1..] == b';
  }

  /** Printing keys loses nothing: two queries share a cache entry only if they agree on the rounded
      coordinates, the radius and the user prefix, whatever the user prefix contains. */
  lemma TextInjective(k: Key, l: Key)
    requires k.radius >= 0 && l.radius >= 0
    requires NoColon(k.lat) && NoColon(k.lng) && NoColon(l.lat) && NoColon(l.lng)
    requires Text(k) == Text(l)
    ensures k == l
  {
    var dk, dl := Decimal(k.radius), Decimal(l.radius);
    var rk, rl := dk + ":" + k.uid, dl + ":" + l.uid;
    var sk, sl := k.lng + ":" + rk, l.lng + ":" + rl;
    assert Text(k) == "grid:" + (k.lat + ":" + sk);
    assert Text(l) == "grid:" + (l.lat + ":" + sl);
    assert Text(k)[5..] == k.lat + ":" + sk && Text(l)[5..] == l.lat + ":" + sl;
    SplitAtColon(k.lat, l.lat, sk, sl);
    SplitAtColon(k.lng, l.lng, rk, rl);
    SplitAtColon(dk, dl, k.uid, l.uid);
    ValueOfDecimal(k.radius);
    ValueOfDecimal(l.radius);
  }
}

/** Hashtag extraction (extractHashtags and its regular expression #([a-zA-Z0-9_]+) in
    backend/internal/repository/message_repo.go). */
module Hashtags {

  predicate IsWord(c: char)
  {
    'a' <= c <= 'z' || 'A' <= c <= 'Z' || '0' <= c <= '9' || c == '_'
  }

  function Lower(c: char): char
  {
    if 'A' <= c <= 'Z' then (c as int + 32) as char else c
  }

  function ToLower(s: string): (r: string)
    ensures |r| == |s| && forall i :: 0 <= i < |s| ==> r[i] == Lower(s[i])
  {
    if s == [] then [] else [Lower(s[0])] + ToLower(s[1..])
  }

  /** Length of the longest prefix made of word characters. */
  function WordLength(s: string): (n: nat)
    ensures n <= |s|
    ensures forall i :: 0 <= i < n ==> IsWord(s[i])
    ensures n < |s| ==> !IsWord(s[n])
  {
    if s == [] || !IsWord(s[0]) then 0 else 1 + WordLength(s[1..])
  }

  /** The expression matches at position `p`. */
  predicate TagStart(s: string, p: int)
  {
    0 <= p && p + 1 < |s| && s[p] == '#' && IsWord(s[p + 1])
  }

  /** The greedy submatch at position `p`. */
  function TagAt(s: string, p: int): string
    requires TagStart(s, p)
  {
    s[p + 1..][..WordLength(s[p + 1..])]
  }

  /** All submatches, leftmost first: at each position either consume a whole match or one character. */
  function Scan(s: string): seq<string>
    decreases |s|
  {
    if s == [] then []
    else if TagStart(s, 0) then [TagAt(s, 0)] + Scan(s[1 + WordLength(s[1..])..])
    else Scan(s[1..])
  }

  function Dedup(tags: seq<string>): seq<string>
  {
    if tags == [] then []
    else
      var front, last := Dedup(tags[..|tags| - 1]), tags[|tags| - 1];
      if last in front then front else front + [last]
  }

  function LowerEach(tags: seq<string>): (r: seq<string>)
    ensures |r| == |tags| && forall i :: 0 <= i < |tags| ==> r[i] == ToLower(tags[i])
  {
    if tags == [] then [] else [ToLower(tags[0])] + LowerEach(tags[1..])
  }

  function Extract(content: string): seq<string>
  {
    Dedup(LowerEach(Scan(content)))
  }

  // ---- The loops ------------------------------------------------------------------

  /** End of the word that starts at position `i`. */
  method WordEnd(s: string, i: nat) returns (j: nat)
    requires i <= |s|
    ensures j == i + WordLength(s[i..])
  {
    j := i;
    while j < |s| && IsWord(s[j])
      invariant i <= j <= |s|
      invariant WordLength(s[i..]) == j - i + WordLength(s[j..])
    {
      assert s[j..][1..] == s[j + 1..];
      j := j + 1;
    }
  }

  /** One turn of the scanner at position `i`: past a match when there is one, else one further. */
  lemma ScanTurn(s: string, i: nat, j: nat)
    requires i < |s| && j == i + 1 + WordLength(s[i + 1..])
    ensures if s[i] == '#' && j > i + 1 then Scan(s[i..]) == [s[i + 1..j]] + Scan(s[j..])
            else Scan(s[i..]) == Scan(s[i + 1..])
  {
    var rest := s[i..];
    assert rest[1..] == s[i + 1..];
    assert rest[j - i..] == s[j..];
    assert s[i + 1..][..j - i - 1] == s[i + 1..j];
    assert TagStart(rest, 0) <==> s[i] == '#' && j > i + 1;
  }

  /** The scanner behind FindAllStringSubmatch: non-overlapping, leftmost, greedy. */
  method FindAll(s: string) returns (matches: seq<string>)
    ensures matches == Scan(s)
  {
    hide WordLength;
    matches := [];
    var i := 0;
    assert s[0..] == s;
    while i < |s|
      invariant 0 <= i <= |s|
      invariant Scan(s) == matches + Scan(s[i..])
      decreases |s| - i
    {
      hide Scan;
      var j := WordEnd(s, i + 1);
      ScanTurn(s, i, j);
      if s[i] == '#' && j > i + 1 {
        matches := matches + [s[i + 1..j]];
        i := j;
      } else {
        i := i + 1;
      }
    }
    assert s[i..] == [];
  }

  method ExtractHashtags(content: string) returns (tags: seq<string>)
    ensures tags == Extract(content)
  {
    var matches := FindAll(content);
    ghost var lowered := LowerEach(matches);
    var seen := {};
    tags := [];
    for i := 0 to |matches|
      invariant tags == Dedup(lowered[..i])
      invariant forall t :: t in seen <==> t in tags
    {
      var tag := ToLower(matches[i]);
      assert lowered[..i + 1][..i] == lowered[..i];
      if tag !in seen {
        seen := seen + {tag};
        tags := tags + [tag];
      }
    }
    assert lowered[..|matches|] == lowered;
  }

  // ---- What the scan finds ------------------------------------------------------------

  /** `tags` are the submatches at the positions `at`. */
  ghost predicate Matches(s: string, tags: seq<string>, at: seq<int>)
  {
    |at| == |tags| && forall i :: 0 <= i < |at| ==> TagStart(s, at[i]) && tags[i] == TagAt(s, at[i])
  }

  ghost predicate Rising(at: seq<int>)
  {
    forall i, j :: 0 <= i < j < |at| ==> at[i] < at[j]
  }

  /** All match positions from `k` on are among `at`. */
  ghost predicate Covers(s: string, at: seq<int>, k: int)
  {
    forall p :: TagStart(s, p) && p >= k ==> p in at
  }

  /** The submatches at all the match positions, in order. */
  ghost predicate Enumerates(s: string, tags: seq<string>, at: seq<int>)
  {
    Matches(s, tags, at) && Rising(at) && Covers(s, at, 0)
  }

  lemma Shift(s: string, k: nat, p: int)
    requires k <= |s| && p >= 0
    ensures TagStart(s[k..], p) <==> TagStart(s, p + k)
    ensures TagStart(s[k..], p) ==> TagAt(s[k..], p) == TagAt(s, p + k)
  {
    if TagStart(s[k..], p) {
      assert s[k..][p + 1..] == s[p + k + 1..];
    }
  }

  /** No match starts inside a match: its characters are word characters. */
  lemma NoStartInside(s: string, p: int)
    requires TagStart(s, 0) && 0 < p <= WordLength(s[1..])
    ensures !TagStart(s, p)
  {
    assert s[p] == s[1..][p - 1];
  }

  function Moved(at: seq<int>, k: int): (r: seq<int>)
    ensures |r| == |at| && forall i :: 0 <= i < |at| ==> r[i] == at[i] + k
  {
    seq(|at|, i requires 0 <= i < |at| => at[i] + k)
  }

  /** Matches of a suffix, moved, are the matches of the whole from there on. */
  lemma EnumerateSuffix(s: string, k: nat, tags: seq<string>, at: seq<int>)
    requires k <= |s| && Enumerates(s[k..], tags, at)
    ensures Matches(s, tags, Moved(at, k)) && Rising(Moved(at, k)) && Covers(s, Moved(at, k), k)
    ensures forall i :: 0 <= i < |at| ==> k <= Moved(at, k)[i]
  {
    hide TagAt;
    forall i | 0 <= i < |at|
      ensures k <= Moved(at, k)[i] && TagStart(s, Moved(at, k)[i]) && tags[i] == TagAt(s, Moved(at, k)[i])
    {
      Shift(s, k, at[i]);
    }
    forall p | TagStart(s, p) && p >= k ensures p in Moved(at, k) {
      Shift(s, k, p - k);
      assert p - k in at;
      var i :| 0 <= i < |at| && at[i] == p - k;
      assert Moved(at, k)[i] == p;
    }
  }

  lemma ConsMatches(s: string, tags: seq<string>, at: seq<int>)
    requires Matches(s, tags, at) && TagStart(s, 0)
    ensures Matches(s, [TagAt(s, 0)] + tags, [0] + at)
  {
    hide TagStart;
    hide TagAt;
  }

  lemma ConsRising(at: seq<int>)
    requires Rising(at) && forall i :: 0 <= i < |at| ==> 0 < at[i]
    ensures Rising([0] + at)
  {
  }

  lemma ConsCovers(s: string, k: nat, at: seq<int>)
    requires Covers(s, at, k) && forall p :: 0 < p < k ==> !TagStart(s, p)
    ensures Covers(s, [0] + at, 0)
  {
    forall p | TagStart(s, p) ensures p in [0] + at {
      assert p == 0 || p in at;
    }
  }

  lemma EnumerateMatch(s: string, k: nat, tags: seq<string>, at: seq<int>)
    requires 0 < k <= |s| && Enumerates(s[k..], tags, at)
    requires TagStart(s, 0) && forall p :: 0 < p < k ==> !TagStart(s, p)
    ensures Enumerates(s, [TagAt(s, 0)] + tags, [0] + Moved(at, k))
  {
    EnumerateSuffix(s, k, tags, at);
    hide Matches;
    hide Rising;
    hide Covers;
    ConsMatches(s, tags, Moved(at, k));
    ConsRising(Moved(at, k));
    ConsCovers(s, k, Moved(at, k));
  }

  lemma EnumerateSkip(s: string, tags: seq<string>, at: seq<int>)
    requires s != [] && Enumerates(s[1..], tags, at) && !TagStart(s, 0)
    ensures Enumerates(s, tags, Moved(at, 1))
  {
    EnumerateSuffix(s, 1, tags, at);
    hide TagStart;
    hide Matches;
    hide Rising;
  }

  /** The scan is exactly the list of greedy submatches at all match positions, left to right. */
  lemma {:induction false} ScanFindsAll(s: string) returns (at: seq<int>)
    ensures Enumerates(s, Scan(s), at)
    decreases |s|
  {
    if s == [] {
      at := [];
    } else if TagStart(s, 0) {
      hide Enumerates;
      hide TagAt;
      var k := 1 + WordLength(s[1..]);
      var rest := ScanFindsAll(s[k..]);
      forall p | 0 < p < k ensures !TagStart(s, p) {
        NoStartInside(s, p);
      }
      EnumerateMatch(s, k, Scan(s[k..]), rest);
      at := [0] + Moved(rest, k);
    } else {
      hide Enumerates;
      hide TagAt;
      var rest := ScanFindsAll(s[1..]);
      EnumerateSkip(s, Scan(s[1..]), rest);
      at := Moved(rest, 1);
    }
  }

  // ---- Removal of duplicates ------------------------------------------------------------

  ghost predicate NoDuplicates(tags: seq<string>)
  {
    forall i, j :: 0 <= i < j < |tags| ==> tags[i] != tags[j]
  }

  /** In `tags`, `a` occurs before every occurrence of `b`. */
  ghost predicate FirstBefore(tags: seq<string>, a: string, b: string)
  {
    exists i :: 0 <= i < |tags| && tags[i] == a && forall j :: 0 <= j < |tags| && tags[j] == b ==> i < j
  }

  lemma {:induction false} DedupKeepsFirsts(tags: seq<string>)
    ensures NoDuplicates(Dedup(tags))
    ensures forall t :: t in Dedup(tags) <==> t in tags
    ensures forall i, j :: 0 <= i < j < |Dedup(tags)| ==> FirstBefore(tags, Dedup(tags)[i], Dedup(tags)[j])
  {
    if tags != [] {
      var n := |tags| - 1;
      var init, last := tags[..n], tags[n];
      DedupKeepsFirsts(init);
      assert tags == init + [last];
      var r := Dedup(tags);
      forall i, j | 0 <= i < j < |r| ensures FirstBefore(tags, r[i], r[j]) {
        if j < |Dedup(init)| {
          assert FirstBefore(init, r[i], r[j]);
          var k :| 0 <= k < n && init[k] == r[i] && forall l :: 0 <= l < n && init[l] == r[j] ==> k < l;
          assert tags[k] == r[i];
        } else {
          assert r[i] in init && r[j] == last && last !in init;
          var k :| 0 <= k < n && init[k] == r[i];
          assert tags[k] == r[i];
        }
      }
    }
  }

  /** The lower-cased tag `t` occurs at position `p`. */
  ghost predicate Occurs(s: string, p: int, t: string)
  {
    TagStart(s, p) && ToLower(TagAt(s, p)) == t
  }

  /** Some occurrence of `a` precedes every occurrence of `b`. */
  ghost predicate OccursFirst(s: string, a: string, b: string)
  {
    exists p :: Occurs(s, p, a) && forall q :: Occurs(s, q, b) ==> p < q
  }

  /** extractHashtags returns the lower-cased greedy tags of the content, each once, exactly
      those that occur, in order of first occurrence. */
  lemma ExtractIsFirstOccurrences(s: string)
    ensures NoDuplicates(Extract(s))
    ensures forall t :: t in Extract(s) <==> exists p :: Occurs(s, p, t)
    ensures forall i, j :: 0 <= i < j < |Extract(s)| ==> OccursFirst(s, Extract(s)[i], Extract(s)[j])
  {
    var low := LowerEach(Scan(s));
    var at := OccurrencesInOrder(s);
    DedupKeepsFirsts(low);
    hide Occurs;
    hide Scan;
    hide Dedup;
    var r := Extract(s);
    assert forall i :: 0 <= i < |low| ==> Occurs(s, at[i], low[i]);
    forall i, j | 0 <= i < j < |r|
      ensures OccursFirst(s, r[i], r[j])
    {
      FirstOccurrenceBefore(s, low, at, r[i], r[j]);
    }
  }

  /** The lower-cased submatches with their positions. */
  ghost predicate ListsOccurrences(s: string, low: seq<string>, at: seq<int>)
  {
    && |at| == |low|
    && (forall i :: 0 <= i < |low| ==> Occurs(s, at[i], low[i]))
    && (forall i, j :: 0 <= i < j < |at| ==> at[i] < at[j])
    && (forall p, t :: Occurs(s, p, t) ==> exists i :: 0 <= i < |at| && at[i] == p && low[i] == t)
  }

  lemma OccurrencesInOrder(s: string) returns (at: seq<int>)
    ensures ListsOccurrences(s, LowerEach(Scan(s)), at)
  {
    at := ScanFindsAll(s);
    var low := LowerEach(Scan(s));
    forall p, t | Occurs(s, p, t) ensures exists i :: 0 <= i < |at| && at[i] == p && low[i] == t {
      var i :| 0 <= i < |at| && at[i] == p;
    }
  }

  lemma FirstOccurrenceBefore(s: string, low: seq<string>, at: seq<int>, a: string, b: string)
    requires ListsOccurrences(s, low, at) && FirstBefore(low, a, b)
    ensures OccursFirst(s, a, b)
  {
    hide Occurs;
    var k :| 0 <= k < |low| && low[k] == a && forall l :: 0 <= l < |low| && low[l] == b ==> k < l;
    assert Occurs(s, at[k], a);
    forall q | Occurs(s, q, b) ensures at[k] < q {
      var l :| 0 <= l < |at| && at[l] == q && low[l] == b;
    }
  }

  /** Every extracted tag is a non-empty string of small letters, digits and underscores; it stands in
      the content behind a '#', up to case, and the character behind it, if any, is no letter, digit or
      underscore. */
  lemma ExtractedLiterally(s: string, t: string) returns (p: int)
    requires t in Extract(s)
    ensures t != [] && forall i :: 0 <= i < |t| ==> 'a' <= t[i] <= 'z' || '0' <= t[i] <= '9' || t[i] == '_'
    ensures 0 <= p && p + 1 + |t| <= |s| && s[p] == '#'
    ensures forall i :: 0 <= i < |t| ==>
              s[p + 1 + i] == t[i] || ('a' <= t[i] <= 'z' && t[i] as int - s[p + 1 + i] as int == 'a' as int - 'A' as int)
    ensures p + 1 + |t| < |s| ==>
              var c := s[p + 1 + |t|];
              !('a' <= c <= 'z') && !('A' <= c <= 'Z') && !('0' <= c <= '9') && c != '_'
  {
    ExtractIsFirstOccurrences(s);
    p :| Occurs(s, p, t);
    LoweredTagIsStored(s, p);
    TagStands(s, p);
    hide Extract;
    hide TagAt;
    assert |TagAt(s, p)| == |t|;
  }

  /** Where the tag of a match stands, and what stops it. */
  lemma TagStands(s: string, p: int)
    requires TagStart(s, p)
    ensures var t := TagAt(s, p);
            && p + 1 + |t| <= |s| && s[p] == '#' && (forall i :: 0 <= i < |t| ==> t[i] == s[p + 1 + i])
            && (p + 1 + |t| < |s| ==> !IsWord(s[p + 1 + |t|]))
  {
  }

  // ---- Round trip -------------------------------------------------------------------------

  /** A tag as stored: non-empty, word characters, lower case. */
  ghost predicate StoredTag(t: string)
  {
    t != [] && forall i :: 0 <= i < |t| ==> IsWord(t[i]) && Lower(t[i]) == t[i]
  }

  /** "#t1 #t2 ..." */
  function Render(tags: seq<string>): string
  {
    if tags == [] then ""
    else "#" + tags[0] + (if |tags| == 1 then "" else " " + Render(tags[1..]))
  }

  lemma {:induction false} WordLengthOf(t: string, rest: string)
    requires forall i :: 0 <= i < |t| ==> IsWord(t[i])
    requires rest == [] || !IsWord(rest[0])
    ensures WordLength(t + rest) == |t|
  {
    assert forall i :: 0 <= i < |t| ==> (t + rest)[i] == t[i];
    assert rest != [] ==> (t + rest)[|t|] == rest[0];
  }

  lemma ScanTag(t: string, rest: string)
    requires StoredTag(t)
    requires rest == [] || !IsWord(rest[0])
    ensures Scan("#" + t + rest) == [t] + Scan(rest)
  {
    var s := "#" + t + rest;
    assert s[1..] == t + rest;
    WordLengthOf(t, rest);
    assert s[1] == t[0];
    assert TagStart(s, 0);
    assert TagAt(s, 0) == (t + rest)[..|t|] == t;
    assert s[1 + |t|..] == rest;
  }

  lemma {:induction false} ScanRender(tags: seq<string>)
    requires forall i :: 0 <= i < |tags| ==> StoredTag(tags[i])
    ensures Scan(Render(tags)) == tags
  {
    if tags != [] {
      ScanRender(tags[1..]);
      if |tags| == 1 {
        assert Render(tags) == "#" + tags[0] + "";
        ScanTag(tags[0], "");
      } else {
        var rest := " " + Render(tags[1..]);
        ScanTag(tags[0], rest);
        assert !TagStart(rest, 0);
        assert rest[1..] == Render(tags[1..]);
      }
      assert tags == [tags[0]] + tags[1..];
    }
  }

  lemma {:induction false} DedupOfDistinct(tags: seq<string>)
    requires NoDuplicates(tags)
    ensures Dedup(tags) == tags
  {
    if tags != [] {
      var n := |tags| - 1;
      DedupOfDistinct(tags[..n]);
      assert tags == tags[..n] + [tags[n]];
    }
  }

  lemma LowerEachOfStored(tags: seq<string>)
    requires forall i :: 0 <= i < |tags| ==> StoredTag(tags[i])
    ensures LowerEach(tags) == tags
  {
    forall i | 0 <= i < |tags| ensures ToLower(tags[i]) == tags[i] {
      assert StoredTag(tags[i]);
    }
  }

  /** Printing a list of stored tags and extracting again returns the list. */
  lemma ExtractOfRender(tags: seq<string>)
    requires NoDuplicates(tags) && forall i :: 0 <= i < |tags| ==> StoredTag(tags[i])
    ensures Extract(Render(tags)) == tags
  {
    ScanRender(tags);
    LowerEachOfStored(tags);
    DedupOfDistinct(tags);
  }

  /** What extraction returns can be stored, so extraction after printing is the identity on it. */
  lemma ExtractedTagsAreStored(s: string)
    ensures forall i :: 0 <= i < |Extract(s)| ==> StoredTag(Extract(s)[i])
    ensures Extract(Render(Extract(s))) == Extract(s)
  {
    ExtractIsFirstOccurrences(s);
    forall i | 0 <= i < |Extract(s)| ensures StoredTag(Extract(s)[i]) {
      assert Extract(s)[i] in Extract(s);
      var p :| Occurs(s, p, Extract(s)[i]);
      LoweredTagIsStored(s, p);
    }
    ExtractOfRender(Extract(s));
  }

  lemma LoweredTagIsStored(s: string, p: int)
    requires TagStart(s, p)
    ensures StoredTag(ToLower(TagAt(s, p)))
  {
    var w := s[p + 1..];
    assert w[0] == s[p + 1] && WordLength(w) > 0;
  }

  // ---- Trimming -------------------------------------------------------------------------------

  /** White space as strings.TrimSpace understands it. */
  predicate IsSpace(c: char)
  {
    var n := c as int;
    0x09 <= n <= 0x0d || n == 0x20 || n == 0x85 || n == 0xa0 || n == 0x1680 || 0x2000 <= n <= 0x200a
    || n == 0x2028 || n == 0x2029 || n == 0x202f || n == 0x205f || n == 0x3000
  }

  function TrimLeft(s: string): string
  {
    if s != [] && IsSpace(s[0]) then TrimLeft(s[1..]) else s
  }

  function TrimRight(s: string): string
  {
    if s != [] && IsSpace(s[|s| - 1]) then TrimRight(s[..|s| - 1]) else s
  }

  function TrimSpace(s: string): string { TrimRight(TrimLeft(s)) }

  /** White space is exactly: tab, line feed, vertical tab, form feed, carriage return, blank, next line,
      the no-break and Ogham spaces, the eleven typographic spaces from U+2000, the two separators, the
      narrow no-break, mathematical and ideographic spaces. */
  lemma SpaceCharacters(c: char)
    ensures IsSpace(c) <==>
            c as int in {9, 10, 11, 12, 13, 32, 133, 160, 5760, 8192, 8193, 8194, 8195, 8196, 8197, 8198, 8199, 8200,
                         8201, 8202, 8232, 8233, 8239, 8287, 12288}
  {
  }

  predicate AllSpace(s: string) { forall i :: 0 <= i < |s| ==> IsSpace(s[i]) }

  lemma {:induction false} TrimLeftExact(s: string) returns (before: string)
    ensures AllSpace(before) && s == before + TrimLeft(s)
    ensures TrimLeft(s) != [] ==> !IsSpace(TrimLeft(s)[0])
  {
    before := [];
    if s != [] && IsSpace(s[0]) {
      var rest := TrimLeftExact(s[1..]);
      before := [s[0]] + rest;
    }
  }

  lemma {:induction false} TrimRightExact(s: string) returns (after: string)
    ensures AllSpace(after) && s == TrimRight(s) + after
    ensures TrimRight(s) != [] ==> !IsSpace(TrimRight(s)[|TrimRight(s)| - 1])
  {
    after := [];
    if s != [] && IsSpace(s[|s| - 1]) {
      var rest := TrimRightExact(s[..|s| - 1]);
      after := rest + [s[|s| - 1]];
    }
  }

  /** What is stored is the content between its outermost characters that are not white space. */
  lemma TrimSpaceExact(s: string) returns (before: string, after: string)
    ensures s == before + TrimSpace(s) + after
    ensures (forall i :: 0 <= i < |before| ==> IsSpace(before[i])) && (forall i :: 0 <= i < |after| ==> IsSpace(after[i]))
    ensures var r := TrimSpace(s); r != [] ==> !IsSpace(r[0]) && !IsSpace(r[|r| - 1])
  {
    before := TrimLeftExact(s);
    after := TrimRightExact(TrimLeft(s));
    var r := TrimSpace(s);
    if r != [] { assert r[0] == TrimLeft(s)[0]; }
  }

  lemma {:induction false} ScanTrimLeft(s: string)
    ensures Scan(TrimLeft(s)) == Scan(s)
  {
    if s != [] && IsSpace(s[0]) {
      ScanTrimLeft(s[1..]);
      assert !TagStart(s, 0);
    }
  }

  /** A trailing character that is neither '#' nor a word character adds nothing. */
  lemma {:induction false} ScanAppend(s: string, c: char)
    requires !IsWord(c) && c != '#'
    ensures Scan(s + [c]) == Scan(s)
    decreases |s|
  {
    var s' := s + [c];
    if s == [] {
      assert s' == [c];
      assert s'[1..] == [];
    } else if TagStart(s, 0) {
      var n := WordLength(s[1..]);
      assert s'[1..] == s[1..] + [c];
      WordLengthAppend(s[1..], c);
      assert TagStart(s', 0) && TagAt(s', 0) == TagAt(s, 0);
      assert s'[1 + n..] == s[1 + n..] + [c];
      ScanAppend(s[1 + n..], c);
    } else {
      assert !TagStart(s', 0);
      assert s'[1..] == s[1..] + [c];
      ScanAppend(s[1..], c);
    }
  }

  lemma WordLengthAppend(w: string, c: char)
    requires !IsWord(c)
    ensures WordLength(w + [c]) == WordLength(w)
  {
    var n := WordLength(w);
    WordLengthOf(w[..n], w[n..] + [c]);
    assert w[..n] + (w[n..] + [c]) == w + [c];
  }

  lemma {:induction false} ScanTrimRight(s: string)
    ensures Scan(TrimRight(s)) == Scan(s)
  {
    if s != [] && IsSpace(s[|s| - 1]) {
      var n := |s| - 1;
      ScanTrimRight(s[..n]);
      ScanAppend(s[..n], s[n]);
      assert s[..n] + [s[n]] == s;
    }
  }

  /** Create extracts tags from the raw content but stores the trimmed content: the tags are the same. */
  lemma ExtractOfTrimmed(s: string)
    ensures Extract(TrimSpace(s)) == Extract(s)
  {
    ScanTrimLeft(s);
    ScanTrimRight(TrimLeft(s));
  }
}

// The publish fan-out of the MQTT 5 server (`mqtt5/server/TopicWork.go`):
// the wildcard candidates of a topic name, the de-duplicated send to the
// subscribers of those candidates, and the re-encoding of a received PUBLISH.

module TopicWork5 {
  import opened Bytes
  import opened RemainingLength
  import opened FixedHeader
  import opened Proto5
  import opened Packets5

  const Slash: byte := 0x2F
  const Plus: byte := 0x2B
  const Hash: byte := 0x23

  /** One level of a topic name: the text between two `/`. */
  type Level = seq<byte>

  // ---------------------------------------------------------------------
  // strings.Count, strings.Split and their inverse

  /** `strings.Count(s, "/")`. */
  function Count(s: seq<byte>): (n: nat)
    ensures n <= |s|
  {
    if s == [] then 0 else (if s[0] == Slash then 1 else 0) + Count(s[1..])
  }

  /** The index of the first `/`. */
  function FirstSlash(s: seq<byte>): (i: nat)
    requires Slash in s
    ensures i < |s| && s[i] == Slash && Slash !in s[..i]
  {
    if s[0] == Slash then 0
    else
      var j := FirstSlash(s[1..]);
      assert s[..j + 1] == [s[0]] + s[1..][..j];
      j + 1
  }

  /** `strings.Split(s, "/")`: never empty. */
  function Split(s: seq<byte>): (r: seq<Level>)
    ensures |r| >= 1
    decreases |s|
  {
    if Slash !in s then [s]
    else
      var i := FirstSlash(s);
      [s[..i]] + Split(s[i + 1..])
  }

  /** `"/" + l` for every level `l`, concatenated. */
  function Tail(ls: seq<Level>): seq<byte>
  {
    if ls == [] then [] else [Slash] + ls[0] + Tail(ls[1..])
  }

  /** `strings.Join(ls, "/")`. */
  function Join(ls: seq<Level>): seq<byte>
    requires |ls| >= 1
  {
    ls[0] + Tail(ls[1..])
  }

  /** No level of a split holds a `/`, and there is more than one exactly
   *  when the topic holds a `/`. */
  lemma {:induction false} SplitSlashFree(s: seq<byte>)
    ensures forall i :: 0 <= i < |Split(s)| ==> Slash !in Split(s)[i]
    ensures |Split(s)| == 1 <==> Slash !in s
    decreases |s|
  {
    if Slash in s {
      var i := FirstSlash(s);
      SplitSlashFree(s[i + 1..]);
      var r := Split(s);
      assert r == [s[..i]] + Split(s[i + 1..]);
      forall j | 1 <= j < |r| ensures Slash !in r[j] {
        assert r[j] == Split(s[i + 1..])[j - 1];
      }
    }
  }

  lemma {:induction false} CountAppend(a: seq<byte>, b: seq<byte>)
    ensures Count(a + b) == Count(a) + Count(b)
    decreases |a|
  {
    if a != [] {
      assert (a + b)[1..] == a[1..] + b;
      CountAppend(a[1..], b);
    } else {
      assert a + b == b;
    }
  }

  /** There is one level more than there are slashes. */
  lemma {:induction false} SplitCount(s: seq<byte>)
    ensures |Split(s)| == Count(s) + 1
    decreases |s|
  {
    if Slash in s {
      var i := FirstSlash(s);
      assert s == s[..i] + ([Slash] + s[i + 1..]);
      CountAppend(s[..i], [Slash] + s[i + 1..]);
      SlashFreeCount(s[..i]);
      assert ([Slash] + s[i + 1..])[1..] == s[i + 1..];
      SplitCount(s[i + 1..]);
    } else {
      SlashFreeCount(s);
    }
  }

  lemma {:induction false} SlashFreeCount(s: seq<byte>)
    requires Slash !in s
    ensures Count(s) == 0
    decreases |s|
  {
    if s != [] {
      assert s[0] in s;
      assert forall x :: x in s[1..] ==> x in s;
      SlashFreeCount(s[1..]);
    }
  }

  /** Joining the levels gives the topic back. */
  lemma {:induction false} SplitJoin(s: seq<byte>)
    ensures Join(Split(s)) == s
    decreases |s|
  {
    if Slash in s {
      var i := FirstSlash(s);
      SplitJoin(s[i + 1..]);
      SplitJoinStep(s, i);
    } else {
      assert Join([s]) == s + [];
    }
  }

  lemma SplitJoinStep(s: seq<byte>, i: nat)
    requires Slash in s && i == FirstSlash(s)
    requires Join(Split(s[i + 1..])) == s[i + 1..]
    ensures Join(Split(s)) == s
  {
    var head, rest := s[..i], s[i + 1..];
    JoinCons(head, Split(rest));
    SliceAround(s, i);
  }

  lemma SliceAround(s: seq<byte>, i: nat)
    requires i < |s|
    ensures s[..i] + ([s[i]] + s[i + 1..]) == s
  {
  }

  lemma JoinCons(h: Level, r: seq<Level>)
    requires |r| >= 1
    ensures Join([h] + r) == h + ([Slash] + Join(r))
  {
    assert ([h] + r)[1..] == r;
  }

  /** Splitting a join of slash-free levels gives the levels back. */
  lemma {:induction false} JoinSplit(ls: seq<Level>)
    requires |ls| >= 1 && forall i :: 0 <= i < |ls| ==> Slash !in ls[i]
    ensures Split(Join(ls)) == ls
    decreases |ls|
  {
    if |ls| > 1 {
      var rest := Join(ls[1..]);
      assert Tail(ls[1..]) == [Slash] + rest;
      var s := Join(ls);
      assert s == ls[0] + [Slash] + rest;
      assert s[|ls[0]|] == Slash && s[..|ls[0]|] == ls[0];
      FirstIsSlashFree(s, |ls[0]|);
      assert s[|ls[0]| + 1..] == rest;
      JoinSplit(ls[1..]);
    } else {
      assert Join(ls) == ls[0];
    }
  }

  lemma {:induction false} FirstIsSlashFree(s: seq<byte>, k: nat)
    requires k < |s| && s[k] == Slash && Slash !in s[..k]
    ensures Slash in s && FirstSlash(s) == k
    decreases k
  {
    if k > 0 {
      assert s[1..][..k - 1] == s[..k][1..];
      FirstIsSlashFree(s[1..], k - 1);
    }
  }

  // ---------------------------------------------------------------------
  // MatchTopic and dfs

  /** `dfs(tps, index, level, tempTp, &ret)`: the candidates it appends to `ret`.
   *  Index 0 closes the candidate with `/#`; index 1 adds `/+`, index 2 the
   *  literal level, and either then either completes the candidate or goes one
   *  level deeper. */
  function Dfs(tps: seq<Level>, index: nat, level: nat, temp: seq<byte>): seq<seq<byte>>
    requires 1 <= level < |tps| && index < 3
    decreases |tps| - level, 0
  {
    if index == 0 then [temp + [Slash, Hash]]
    else
      var t := if index == 1 then temp + [Slash, Plus] else temp + [Slash] + tps[level];
      if level + 1 == |tps| then [t] else Group(tps, level + 1, t)
  }

  /** The loop `for i := 0; i < 3; i++ { dfs(tps, i, level, tempTp, ret) }`. */
  function Group(tps: seq<Level>, level: nat, temp: seq<byte>): seq<seq<byte>>
    requires 1 <= level < |tps|
    decreases |tps| - level, 1
  {
    Dfs(tps, 0, level, temp) + Dfs(tps, 1, level, temp) + Dfs(tps, 2, level, temp)
  }

  /** The topics `MatchTopic` can enumerate: a lone `#`, or one with a `/`.
   *  For any other topic `dfs` recurses without bound, since its index-1
   *  branch never reaches `level == len(tps)`. */
  predicate Enumerable(topic: seq<byte>)
  {
    topic == [Hash] || Slash in topic
  }

  /** The case `Enumerable` excludes: a topic other than `#` without a `/`
   *  has one level, so no group can start at level 1 (and `dfs` in Go never
   *  reaches `level == len(tps)` from there). */
  lemma NoSlashNotEnumerable(topic: seq<byte>)
    requires Slash !in topic && topic != [Hash]
    ensures !Enumerable(topic) && Split(topic) == [topic] && !(1 < |Split(topic)|)
  {
  }

  /** `MatchTopic`: the filters under which a subscriber receives `topic`. */
  function MatchTopic(topic: seq<byte>): (ret: seq<seq<byte>>)
    requires Enumerable(topic)
    ensures topic == [Slash] || topic == [Hash] ==> ret == []
  {
    if |topic| == 1 && (topic == [Slash] || topic == [Hash]) then []
    else
      var tp := Split(topic);
      Group(tp, 1, tp[0])
  }

  /** 2 to the power `n`. */
  function Pow2(n: nat): (r: nat)
    ensures r >= 1
  {
    if n == 0 then 1 else 2 * Pow2(n - 1)
  }

  /** A group from `level` yields 2^(levels left + 1) - 1 candidates. */
  lemma {:induction false} GroupCount(tps: seq<Level>, level: nat, temp: seq<byte>)
    requires 1 <= level < |tps|
    ensures |Group(tps, level, temp)| == Pow2(|tps| - level + 1) - 1
    decreases |tps| - level
  {
    if level + 1 < |tps| {
      GroupCount(tps, level + 1, temp + [Slash, Plus]);
      GroupCount(tps, level + 1, temp + [Slash] + tps[level]);
      assert Pow2(|tps| - level + 1) == 2 * Pow2(|tps| - (level + 1) + 1);
    } else {
      assert Pow2(2) == 4;
    }
  }

  /** A topic with s >= 1 slashes has exactly 2^(s+1) - 1 candidates: the
   *  capacity `MatchTopic` reserves. */
  lemma MatchTopicCount(topic: seq<byte>)
    requires Slash in topic && topic != [Slash]
    ensures |MatchTopic(topic)| == Pow2(Count(topic) + 1) - 1
  {
    SplitCount(topic);
    GroupCount(Split(topic), 1, Split(topic)[0]);
  }

  /** A group from `level` holds the candidate made of the literal levels. */
  lemma {:induction false} GroupHasLiteral(tps: seq<Level>, level: nat, temp: seq<byte>)
    requires 1 <= level < |tps|
    ensures temp + Tail(tps[level..]) in Group(tps, level, temp)
    decreases |tps| - level
  {
    var t := temp + [Slash] + tps[level];
    var x := temp + Tail(tps[level..]);
    assert tps[level..][1..] == tps[level + 1..];
    assert x == t + Tail(tps[level + 1..]);
    var g2 := Dfs(tps, 2, level, temp);
    if level + 1 < |tps| {
      GroupHasLiteral(tps, level + 1, t);
      assert g2 == Group(tps, level + 1, t);
    } else {
      assert tps[level + 1..] == [];
      assert x == t;
      assert g2 == [t];
    }
    assert x in g2;
    assert Group(tps, level, temp) == Dfs(tps, 0, level, temp) + Dfs(tps, 1, level, temp) + g2;
  }

  /** The exact topic is one of its own candidates. */
  lemma ExactTopicMatched(topic: seq<byte>)
    requires Slash in topic && topic != [Slash]
    ensures topic in MatchTopic(topic)
  {
    var tp := Split(topic);
    SplitJoin(topic);
    GroupHasLiteral(tp, 1, tp[0]);
  }

  /** The levels `ms` take, from `from` on, either the topic's own level or `+`. */
  predicate Literal(tps: seq<Level>, from: nat, ms: seq<Level>)
  {
    from + |ms| <= |tps| && forall j :: 0 <= j < |ms| ==> ms[j] == [Plus] || ms[j] == tps[from + j]
  }

  /** The levels of a candidate past `from`: every remaining level, or fewer
   *  closed by a single `#`. */
  predicate Pattern(tps: seq<Level>, from: nat, ls: seq<Level>)
  {
    from <= |tps| &&
    ((|ls| == |tps| - from && Literal(tps, from, ls)) ||
     (1 <= |ls| <= |tps| - from && ls[|ls| - 1] == [Hash] && Literal(tps, from, ls[..|ls| - 1])))
  }

  lemma PatternCons(tps: seq<Level>, from: nat, l: Level, ls: seq<Level>)
    requires from < |tps| && Pattern(tps, from + 1, ls) && (l == [Plus] || l == tps[from])
    ensures Pattern(tps, from, [l] + ls)
  {
    var r := [l] + ls;
    if |ls| >= 1 && ls[|ls| - 1] == [Hash] && Literal(tps, from + 1, ls[..|ls| - 1]) {
      assert r[..|r| - 1] == [l] + ls[..|ls| - 1];
    }
  }

  /** Every candidate of a group is `temp` followed by a pattern of the
   *  remaining levels. */
  lemma {:induction false} GroupShape(tps: seq<Level>, level: nat, temp: seq<byte>, c: seq<byte>)
    requires 1 <= level < |tps| && c in Group(tps, level, temp)
    ensures exists ls :: Pattern(tps, level, ls) && c == temp + Tail(ls)
    decreases |tps| - level
  {
    if c in Dfs(tps, 0, level, temp) {
      var ls := [[Hash]];
      assert Tail(ls) == [Slash, Hash];
      assert ls[..0] == [];
      assert Pattern(tps, level, ls) && c == temp + Tail(ls);
    } else {
      var index: nat, l: Level;
      if c in Dfs(tps, 1, level, temp) {
        index, l := 1, [Plus];
      } else {
        index, l := 2, tps[level];
      }
      assert c in Dfs(tps, index, level, temp);
      var t := temp + [Slash] + l;
      assert t == if index == 1 then temp + [Slash, Plus] else temp + [Slash] + tps[level];
      if level + 1 == |tps| {
        var ls := [l];
        assert Tail(ls) == [Slash] + l;
        assert Literal(tps, level, ls);
        assert Pattern(tps, level, ls) && c == temp + Tail(ls);
      } else {
        GroupShape(tps, level + 1, t, c);
        DeeperShape(tps, level, temp, l, c);
      }
    }
  }

  /** One level of `GroupShape`: a pattern past the next level, preceded by
   *  `l`, is a pattern from this one. */
  lemma DeeperShape(tps: seq<Level>, level: nat, temp: seq<byte>, l: Level, c: seq<byte>)
    requires 1 <= level < |tps| - 1 && (l == [Plus] || l == tps[level])
    requires exists rest :: Pattern(tps, level + 1, rest) && c == temp + [Slash] + l + Tail(rest)
    ensures exists ls :: Pattern(tps, level, ls) && c == temp + Tail(ls)
  {
    var rest :| Pattern(tps, level + 1, rest) && c == temp + [Slash] + l + Tail(rest);
    PatternCons(tps, level, l, rest);
    var ls := [l] + rest;
    assert ls[1..] == rest;
    assert Pattern(tps, level, ls) && c == temp + Tail(ls);
  }

  /** The converse of `GroupShape`: every pattern of the remaining levels,
   *  after `temp`, is emitted by the group. */
  lemma {:induction false} GroupComplete(tps: seq<Level>, level: nat, temp: seq<byte>, ls: seq<Level>)
    requires 1 <= level < |tps| && Pattern(tps, level, ls)
    ensures temp + Tail(ls) in Group(tps, level, temp)
    decreases |tps| - level
  {
    var g := Group(tps, level, temp);
    assert g == Dfs(tps, 0, level, temp) + Dfs(tps, 1, level, temp) + Dfs(tps, 2, level, temp);
    if ls == [[Hash]] {
      assert Tail(ls) == [Slash, Hash];
      assert temp + Tail(ls) in Dfs(tps, 0, level, temp);
    } else {
      var l, rest := ls[0], ls[1..];
      PatternHead(tps, level, ls);
      var index := if l == [Plus] then 1 else 2;
      var t := temp + [Slash] + l;
      assert t == if index == 1 then temp + [Slash, Plus] else temp + [Slash] + tps[level];
      assert temp + Tail(ls) == t + Tail(rest);
      if level + 1 == |tps| {
        assert rest == [] && Tail(rest) == [];
        assert temp + Tail(ls) == t;
        assert Dfs(tps, index, level, temp) == [t];
      } else {
        GroupComplete(tps, level + 1, t, rest);
        assert Dfs(tps, index, level, temp) == Group(tps, level + 1, t);
      }
      assert temp + Tail(ls) in Dfs(tps, index, level, temp);
    }
  }

  /** A pattern other than a lone `#` starts with the literal level or `+`,
   *  and what follows is a pattern from the next level (empty at the last). */
  lemma PatternHead(tps: seq<Level>, from: nat, ls: seq<Level>)
    requires from < |tps| && Pattern(tps, from, ls) && ls != [[Hash]]
    ensures |ls| >= 1 && (ls[0] == [Plus] || ls[0] == tps[from])
    ensures from + 1 == |tps| ==> ls[1..] == []
    ensures from + 1 < |tps| ==> Pattern(tps, from + 1, ls[1..])
  {
    var r := ls[1..];
    if |ls| == |tps| - from && Literal(tps, from, ls) {
      assert Literal(tps, from + 1, r);
    } else {
      assert ls[..|ls| - 1][0] == ls[0];
      assert ls[..|ls| - 1][1..] == r[..|r| - 1];
      assert Literal(tps, from + 1, r[..|r| - 1]);
    }
  }

  /** Every filter made of the topic's first level and then, level by level,
   *  the topic's level or `+`, possibly ended early by `#`, is a candidate. */
  lemma MatchTopicComplete(topic: seq<byte>, ls: seq<Level>)
    requires Slash in topic && topic != [Slash] && Pattern(Split(topic), 1, ls)
    ensures Split(topic)[0] + Tail(ls) in MatchTopic(topic)
  {
    var tp := Split(topic);
    SplitCount(topic);
    GroupComplete(tp, 1, tp[0], ls);
  }

  /** Both `a/+/c` and `a/b/#` are candidates of `a/b/c`, so subscribers of
   *  either filter are reached by a publish to `a/b/c`. */
  lemma WildcardCandidates()
    ensures Join([[0x61], [Plus], [0x63]]) in MatchTopic(Join([[0x61], [0x62], [0x63]]))
    ensures Join([[0x61], [0x62], [Hash]]) in MatchTopic(Join([[0x61], [0x62], [0x63]]))
  {
    var tl: seq<Level> := [[0x61], [0x62], [0x63]];
    var topic := Join(tl);
    assert topic == [0x61, Slash, 0x62, Slash, 0x63];
    JoinSplit(tl);
    var plus: seq<Level> := [[Plus], [0x63]];
    assert Literal(tl, 1, plus);
    MatchTopicComplete(topic, plus);
    assert Join([[0x61], [Plus], [0x63]]) == tl[0] + Tail(plus);
    var hash: seq<Level> := [[0x62], [Hash]];
    assert hash[..1] == [[0x62]] && Literal(tl, 1, hash[..1]);
    MatchTopicComplete(topic, hash);
    assert Join([[0x61], [0x62], [Hash]]) == tl[0] + Tail(hash);
  }

  /** MQTT topic matching on levels: `+` matches one level, a final `#` the
   *  rest of the levels (none included), any other level itself. */
  predicate Matches(filter: seq<Level>, topic: seq<Level>)
    decreases |filter|
  {
    if filter == [] then topic == []
    else if filter == [[Hash]] then true
    else topic != [] && (filter[0] == [Plus] || filter[0] == topic[0]) && Matches(filter[1..], topic[1..])
  }

  lemma {:induction false} PatternMatches(tps: seq<Level>, from: nat, ls: seq<Level>)
    requires Pattern(tps, from, ls)
    ensures Matches(ls, tps[from..])
    decreases |ls|
  {
    if ls != [] && ls != [[Hash]] {
      assert from < |tps|;
      assert tps[from..][1..] == tps[from + 1..];
      var r := ls[1..];
      if |ls| == |tps| - from && Literal(tps, from, ls) {
        assert Literal(tps, from + 1, r);
      } else {
        assert ls[..|ls| - 1][1..] == r[..|r| - 1];
        assert Literal(tps, from + 1, r[..|r| - 1]);
      }
      assert Pattern(tps, from + 1, r);
      PatternMatches(tps, from + 1, r);
    }
  }

  /** The levels of a pattern over slash-free levels are slash-free. */
  lemma PatternSlashFree(tps: seq<Level>, from: nat, ls: seq<Level>)
    requires Pattern(tps, from, ls)
    requires forall i :: 0 <= i < |tps| ==> Slash !in tps[i]
    ensures forall j :: 0 <= j < |ls| ==> Slash !in ls[j]
  {
    forall j | 0 <= j < |ls| ensures Slash !in ls[j] {
      if j < |ls| - 1 || (|ls| == |tps| - from && Literal(tps, from, ls)) {
        assert ls[j] == [Plus] || ls[j] == tps[from + j];
      } else {
        assert ls[j] == [Hash];
      }
    }
  }

  /** The levels of a pattern are the topic's or `+`, and only the last may be `#`. */
  lemma PatternLevels(tl: seq<Level>, ls: seq<Level>)
    requires 1 <= |tl| && Pattern(tl, 1, ls)
    ensures var cl := [tl[0]] + ls;
      |cl| <= |tl| && forall j :: 1 <= j < |cl| ==> cl[j] == [Plus] || cl[j] == tl[j] || (j == |cl| - 1 && cl[j] == [Hash])
  {
    var cl := [tl[0]] + ls;
    forall j | 1 <= j < |cl|
      ensures cl[j] == [Plus] || cl[j] == tl[j] || (j == |cl| - 1 && cl[j] == [Hash])
    {
      assert cl[j] == ls[j - 1];
      if j < |cl| - 1 {
        assert ls[..|ls| - 1][j - 1] == ls[j - 1];
      }
    }
  }

  /** A candidate built on a pattern reads back as its levels. */
  lemma CandidateSplits(tl: seq<Level>, ls: seq<Level>)
    requires 1 <= |tl| && Pattern(tl, 1, ls)
    requires forall i :: 0 <= i < |tl| ==> Slash !in tl[i]
    ensures Split(tl[0] + Tail(ls)) == [tl[0]] + ls
  {
    PatternSlashFree(tl, 1, ls);
    var levels := [tl[0]] + ls;
    assert levels[1..] == ls;
    forall j | 0 <= j < |levels| ensures Slash !in levels[j] {
      if j > 0 { assert levels[j] == ls[j - 1]; }
    }
    JoinSplit(levels);
  }

  /** Every candidate starts with the topic's own first level; each later
   *  level is the topic's level or `+`, except that a `#` may end it. Read
   *  back as a filter, it matches the topic. */
  lemma CandidateMatches(topic: seq<byte>, c: seq<byte>)
    requires Enumerable(topic) && c in MatchTopic(topic)
    ensures var cl, tl := Split(c), Split(topic);
      cl[0] == tl[0] && |cl| <= |tl|
      && (forall j :: 1 <= j < |cl| ==> cl[j] == [Plus] || cl[j] == tl[j] || (j == |cl| - 1 && cl[j] == [Hash]))
      && Matches(cl, tl)
  {
    var tl := Split(topic);
    GroupShape(tl, 1, tl[0], c);
    var ls :| Pattern(tl, 1, ls) && c == tl[0] + Tail(ls);
    SplitSlashFree(topic);
    CandidateSplits(tl, ls);
    PatternLevels(tl, ls);
    PatternMatches(tl, 1, ls);
    assert tl == [tl[0]] + tl[1..];
    assert ([tl[0]] + ls)[1..] == ls;
  }

  // ---------------------------------------------------------------------
  // matchSend and sendPub

  /** A client identifier, the key of the subscription and connection tables. */
  type ClientId = seq<byte>

  /** The identity of a `*Conn`; two clients may share one. */
  type ConnRef = nat

  /** `subMapM[stop]`: the clients subscribed to exactly the filter `stop`. */
  function SubscribersOf(subs: map<seq<byte>, set<ClientId>>, stop: seq<byte>): set<ClientId>
  {
    if stop in subs then subs[stop] else {}
  }

  /** The connections `getConn` finds for `clients`. */
  function ConnsOf(clients: set<ClientId>, conns: map<ClientId, ConnRef>): set<ConnRef>
  {
    set c | c in clients && c in conns :: conns[c]
  }

  /** The connections of every subscriber of some filter in `stops`. */
  function Reached(stops: seq<seq<byte>>, subs: map<seq<byte>, set<ClientId>>, conns: map<ClientId, ConnRef>): set<ConnRef>
  {
    if stops == [] then {}
    else Reached(stops[..|stops| - 1], subs, conns) + ConnsOf(SubscribersOf(subs, stops[|stops| - 1]), conns)
  }

  lemma ConnsOfInsert(done: set<ClientId>, client: ClientId, conns: map<ClientId, ConnRef>)
    ensures ConnsOf(done + {client}, conns)
      == ConnsOf(done, conns) + (if client in conns then {conns[client]} else {})
  {
  }

  predicate NoRepeats(sent: seq<ConnRef>)
  {
    forall i, j :: 0 <= i < j < |sent| ==> sent[i] != sent[j]
  }

  /** The inner loop of `matchSend` over the subscribers `all` of one
   *  candidate: a subscriber with a connection not yet in `conMap` is sent to
   *  and its connection recorded; the others are skipped. */
  method SendToSubscribers(all: set<ClientId>, conns: map<ClientId, ConnRef>,
                           conMap: set<ConnRef>, sent: seq<ConnRef>)
    returns (conMap': set<ConnRef>, sent': seq<ConnRef>)
    requires forall c :: c in sent <==> c in conMap
    requires NoRepeats(sent)
    ensures conMap' == conMap + ConnsOf(all, conns)
    ensures forall c :: c in sent' <==> c in conMap'
    ensures NoRepeats(sent') && |sent| <= |sent'| && sent'[..|sent|] == sent
  {
    conMap', sent' := conMap, sent;
    var rest := all;
    while rest != {}
      invariant rest <= all
      invariant conMap' == conMap + ConnsOf(all - rest, conns)
      invariant forall c :: c in sent' <==> c in conMap'
      invariant NoRepeats(sent') && |sent| <= |sent'| && sent'[..|sent|] == sent
      decreases rest
    {
      var client :| client in rest;
      ConnsOfInsert(all - rest, client, conns);
      assert all - (rest - {client}) == (all - rest) + {client};
      rest := rest - {client};
      if client in conns {
        var con := conns[client];
        if con !in conMap' {
          sent' := sent' + [con];
          conMap' := conMap' + {con};
        }
      }
    }
    assert all - rest == all;
  }

  /** `matchSend`: `data` goes to every connection reached through the
   *  candidates of `topic`, once each; `sent` lists those connections in send
   *  order. Go's map iteration order is left open. */
  method MatchSend(topic: seq<byte>, subs: map<seq<byte>, set<ClientId>>, conns: map<ClientId, ConnRef>)
    returns (sent: seq<ConnRef>)
    requires Enumerable(topic)
    ensures NoRepeats(sent)
    ensures forall c :: c in sent <==> c in Reached(MatchTopic(topic), subs, conns)
    ensures MatchTopic(topic) == [] ==> sent == []
  {
    var tol := MatchTopic(topic);
    sent := [];
    if |tol| < 1 {
      return;
    }
    var conMap: set<ConnRef> := {};
    var k := 0;
    while k < |tol|
      invariant 0 <= k <= |tol|
      invariant conMap == Reached(tol[..k], subs, conns)
      invariant forall c :: c in sent <==> c in conMap
      invariant NoRepeats(sent)
    {
      conMap, sent := SendToSubscribers(SubscribersOf(subs, tol[k]), conns, conMap, sent);
      assert tol[..k + 1][..k] == tol[..k];
      k := k + 1;
    }
    assert tol[..|tol|] == tol;
  }

  /** The PUBLISH `sendPub` builds from a received one: flag 0x30, no packet
   *  identifier, no properties, `MsgLen` = 2 + 1 + `TopicNameLength` +
   *  |payload| as a `uint32`. */
  function Republish(re: Publish): (p: Publish)
    ensures p.fixed.headerFlag == PUBLISH && p.propertiesLength == 0 && p.qos == QoS0
    ensures p.fixed.msgLen == (3 + re.topicNameLength + |re.payload|) % 0x1_0000_0000
    ensures p.topicName == re.topicName && p.topicNameLength == re.topicNameLength && p.payload == re.payload
  {
    Publish(Fixed(PUBLISH, (2 + 1 + re.topicNameLength + |re.payload|) % 0x1_0000_0000, []),
            re.topicNameLength, re.topicName, Pid(0, 0), 0, 0, re.payload, QoS0, false, Success)
  }

  /** `sendPub`: the bytes it fans out and the connections they go to. */
  method SendPub(re: Publish, subs: map<seq<byte>, set<ClientId>>, conns: map<ClientId, ConnRef>)
    returns (data: seq<byte>, sent: seq<ConnRef>)
    requires re.topicNameLength < 0x1_0000 && Enumerable(re.topicName)
    ensures data == PackPublish(Republish(re))
    ensures NoRepeats(sent)
    ensures forall c :: c in sent <==> c in Reached(MatchTopic(re.topicName), subs, conns)
  {
    var p := Republish(re);
    data := PackPublish(p);
    sent := MatchSend(re.topicName, subs, conns);
  }

  /** The bytes fanned out for a PUBLISH whose length field is true decode
   *  back to its topic and payload, at QoS 0 without retain. */
  lemma RepublishDecodes(re: Publish)
    requires re.topicNameLength == |re.topicName| < 0xFFFC
    requires 5 <= 3 + |re.topicName| + |re.payload| <= MaxLength
    ensures var bytes := PackPublish(Republish(re));
      bytes[0] == PUBLISH
      && UnPackFixed(bytes).Ok? && UnPackFixed(bytes).value.1 == |bytes|
      && var d := UnPackPublish(NewPublish(UnPackFixed(bytes).value.0));
      d.Returns? && d.value.0.topicName == re.topicName && d.value.0.payload == re.payload
      && d.value.0.qos == QoS0 && !d.value.0.retain
  {
    var p := Republish(re);
    PublishRoundTrip(p);
    assert PublishQos(PUBLISH) == QoS0 && !PublishRetain(PUBLISH);
  }
}

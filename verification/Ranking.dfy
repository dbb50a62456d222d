/**
 * Recommendations: which candidates a query may see, how they are scored, and the order they come in. One description
 * serves both surfaces, directory entries recommended for a repertoire item and the other way round.
 */
module Ranking {
  import opened Common
  import Sorting

  datatype Surface = Directory | Repertoire

  datatype Rule = Rule(entry: nat, item: nat, blocks: bool)

  datatype Pin = Pin(target: Option<nat>, createdAt: int, expiresAt: Option<int>)

  /**
   * A row with what was looked up for it: whether policy shows it, its summed signals, and how many requested tags
   * it has.
   */
  datatype Candidate = Candidate(id: nat, name: string, allowed: bool, popularity: real, recent: real, tagMatch: real)

  datatype Modes = Modes(popularity: bool, recent: bool, tagMatch: bool)

  datatype Weights = Weights(popularity: real, recent: real, tagMatch: real)

  datatype Config = Config(modes: Modes, weights: Weights, pinsEnabled: bool, maxPins: nat, enforcePairing: bool)

  /** Case folding of names, and rounding of scores. */
  datatype Conventions = Conventions(lower: string -> string, round: real -> real)

  datatype Shop = Shop(candidates: seq<Candidate>, pins: seq<Pin>, rules: seq<Rule>, config: Config,
      conventions: Conventions)

  /** `partner` is the repertoire item, or the entry, recommendations are wanted for. */
  datatype Query = Query(surface: Surface, partner: Option<nat>, limit: nat, now: int)

  datatype Scored = Scored(pinned: bool, index: nat, score: real, candidate: Candidate)

  // ---- Pairing ----

  ghost predicate Blocked(rules: seq<Rule>, entry: nat, item: nat) {
    exists k :: 0 <= k < |rules| && rules[k] == Rule(entry, item, true)
  }

  ghost predicate HasAllowlist(rules: seq<Rule>, item: nat) {
    exists k :: 0 <= k < |rules| && rules[k].item == item && !rules[k].blocks
  }

  ghost predicate Allowlisted(rules: seq<Rule>, entry: nat, item: nat) {
    exists k :: 0 <= k < |rules| && rules[k] == Rule(entry, item, false)
  }

  /** A block always wins; an item with an allowlist takes nobody else. */
  ghost predicate PairingAllowed(rules: seq<Rule>, entry: nat, item: nat) {
    !Blocked(rules, entry, item) && (HasAllowlist(rules, item) ==> Allowlisted(rules, entry, item))
  }

  ghost predicate Paired(s: Shop, q: Query, id: nat) {
    s.config.enforcePairing && q.partner.Some? ==>
      if q.surface == Directory then PairingAllowed(s.rules, id, q.partner.value)
      else PairingAllowed(s.rules, q.partner.value, id)
  }

  ghost predicate MayAppear(s: Shop, q: Query, c: Candidate) { c.allowed && Paired(s, q, c.id) }

  // ---- Pins ----

  function NewestFirst(): (Pin, Pin) -> bool { (a: Pin, b: Pin) => a.createdAt >= b.createdAt }

  function NotUsable(now: int): Pin -> bool {
    (p: Pin) => (p.expiresAt.Some? && p.expiresAt.value < now) || p.target.None?
  }

  /** The pins that count: unexpired, newest first, no more than the configured number. */
  function UsedPins(s: Shop, q: Query): (r: seq<Pin>)
    ensures |r| <= s.config.maxPins
  {
    if !s.config.pinsEnabled then []
    else
      var usable := Without(Sorting.Sort(NewestFirst(), s.pins), NotUsable(q.now));
      usable[..Min(s.config.maxPins, |usable|)]
  }

  /** Positions by target; a later pin of the same target overwrites an earlier one. */
  function PinIndex(pins: seq<Pin>): map<nat, nat> {
    if pins == [] then map[]
    else
      var n := |pins| - 1;
      if pins[n].target.Some? then PinIndex(pins[..n])[pins[n].target.value := n] else PinIndex(pins[..n])
  }

  // ---- Scores ----

  function TotalOf(w: Weights): real { w.popularity + w.recent + w.tagMatch }

  function Share(part: real, whole: real): real
    requires whole > 0.0
  {
    part / whole
  }

  function NormalizedWeights(w: Weights): Weights {
    if TotalOf(w) <= 0.0 then Weights(0.5, 0.3, 0.2)
    else Weights(Share(w.popularity, TotalOf(w)), Share(w.recent, TotalOf(w)), Share(w.tagMatch, TotalOf(w)))
  }

  function Blend(modes: Modes, w: Weights, c: Candidate): real {
    (if modes.popularity then c.popularity * w.popularity else 0.0)
    + (if modes.recent then c.recent * w.recent else 0.0)
    + (if modes.tagMatch then c.tagMatch * w.tagMatch else 0.0)
  }

  function Score(s: Shop, c: Candidate): real {
    s.conventions.round(Blend(s.config.modes, NormalizedWeights(s.config.weights), c))
  }

  function Scoring(s: Shop, pins: map<nat, nat>, c: Candidate): Scored {
    if c.id in pins then Scored(true, pins[c.id], Score(s, c), c) else Scored(false, 10_000, Score(s, c), c)
  }

  // ---- The order ----

  /** Alphabetical order. */
  predicate NotAfter(a: string, b: string) {
    a == [] || (b != [] && (a[0] < b[0] || (a[0] == b[0] && NotAfter(a[1..], b[1..]))))
  }

  function Group(x: Scored): nat { if x.pinned then 0 else 1 }

  /** Pinned before the rest, then by pin position, then by falling score, then by name. */
  predicate RanksBefore(lower: string -> string, a: Scored, b: Scored) {
    || Group(a) < Group(b)
    || (Group(a) == Group(b) &&
          (|| a.index < b.index
           || (a.index == b.index &&
                 (|| a.score > b.score
                  || (a.score == b.score && NotAfter(lower(a.candidate.name), lower(b.candidate.name)))))))
  }

  function Ranked(lower: string -> string): (Scored, Scored) -> bool
  {
    (a: Scored, b: Scored) => RanksBefore(lower, a, b)
  }

  /** Everything that may appear, scored, in table order. */
  ghost function ScoredUpTo(s: Shop, q: Query, n: nat): seq<Scored>
    requires n <= |s.candidates|
  {
    if n == 0 then []
    else
      var before := ScoredUpTo(s, q, n - 1);
      var c := s.candidates[n - 1];
      if MayAppear(s, q, c) then before + [Scoring(s, PinIndex(UsedPins(s, q)), c)] else before
  }

  ghost function AllScored(s: Shop, q: Query): seq<Scored> { ScoredUpTo(s, q, |s.candidates|) }

  ghost function Results(s: Shop, q: Query): seq<Scored> {
    Sorting.First(Ranked(s.conventions.lower), AllScored(s, q), q.limit)
  }

  // ---- The order is an order ----

  lemma {:induction false} AlphabetTotal(a: string, b: string)
    ensures NotAfter(a, b) || NotAfter(b, a)
  {
    if a != [] && b != [] && a[0] == b[0] { AlphabetTotal(a[1..], b[1..]); }
  }

  lemma {:induction false} AlphabetTransitive(a: string, b: string, c: string)
    requires NotAfter(a, b) && NotAfter(b, c)
    ensures NotAfter(a, c)
  {
    if a != [] && b != [] && c != [] && a[0] == b[0] == c[0] { AlphabetTransitive(a[1..], b[1..], c[1..]); }
  }

  lemma RankedIsAnOrder(lower: string -> string)
    ensures Sorting.TotalPreorder(Ranked(lower))
  {
    var le := Ranked(lower);
    forall a, b
      ensures le(a, b) || le(b, a)
    {
      AlphabetTotal(lower(a.candidate.name), lower(b.candidate.name));
    }
    forall a, b, c | le(a, b) && le(b, c)
      ensures le(a, c)
    {
      RankedTransitive(lower, a, b, c);
    }
  }

  lemma RankedTransitive(lower: string -> string, a: Scored, b: Scored, c: Scored)
    requires RanksBefore(lower, a, b) && RanksBefore(lower, b, c)
    ensures RanksBefore(lower, a, c)
  {
    var x, y, z := lower(a.candidate.name), lower(b.candidate.name), lower(c.candidate.name);
    if NotAfter(x, y) && NotAfter(y, z) { AlphabetTransitive(x, y, z); }
  }

  // ---- Who appears ----

  ghost predicate DistinctCandidates(s: Shop) {
    forall i, j :: 0 <= i < j < |s.candidates| ==> s.candidates[i].id != s.candidates[j].id
  }

  lemma {:induction false} ScoredAreThoseWhoMay(s: Shop, q: Query, n: nat)
    requires n <= |s.candidates|
    ensures forall x :: x in ScoredUpTo(s, q, n) <==>
              exists k :: 0 <= k < n && MayAppear(s, q, s.candidates[k])
                          && x == Scoring(s, PinIndex(UsedPins(s, q)), s.candidates[k])
  {
    if n > 0 { ScoredAreThoseWhoMay(s, q, n - 1); }
  }

  lemma {:induction false} ScoredOnce(s: Shop, q: Query, n: nat)
    requires n <= |s.candidates| && DistinctCandidates(s)
    ensures Sorting.Distinct(ScoredUpTo(s, q, n))
    ensures forall x :: x in ScoredUpTo(s, q, n) ==> exists k :: 0 <= k < n && s.candidates[k] == x.candidate
  {
    if n > 0 { ScoredOnce(s, q, n - 1); }
  }

  /**
   * The results are the first of everything that may appear: nothing else is among them, they come in rank order, no
   * candidate that was left out ranks strictly before one that was not, and none is left out below the limit.
   */
  lemma ResultsAreTheFirst(s: Shop, q: Query)
    ensures
      var r := Results(s, q);
      && |r| == Min(q.limit, |AllScored(s, q)|)
      && (forall x :: x in r ==>
            && MayAppear(s, q, x.candidate) && x.candidate in s.candidates
            && x == Scoring(s, PinIndex(UsedPins(s, q)), x.candidate))
      && Sorting.Ordered(Ranked(s.conventions.lower), r)
      && (forall c :: c in s.candidates && MayAppear(s, q, c) ==>
            var y := Scoring(s, PinIndex(UsedPins(s, q)), c);
            y in r || (|r| == q.limit && forall x :: x in r ==> RanksBefore(s.conventions.lower, x, y)))
  {
    var le := Ranked(s.conventions.lower);
    RankedIsAnOrder(s.conventions.lower);
    Sorting.FirstAreFirst(le, AllScored(s, q), q.limit);
    ScoredAreThoseWhoMay(s, q, |s.candidates|);
    forall c | c in s.candidates && MayAppear(s, q, c)
      ensures Scoring(s, PinIndex(UsedPins(s, q)), c) in AllScored(s, q)
    {
      var k :| 0 <= k < |s.candidates| && s.candidates[k] == c;
    }
  }

  /**
   * A blocked pair never appears, even when it is also allowlisted, as long as rules are enforced and a partner is
   * given.
   */
  lemma BlockedNeverAppears(s: Shop, q: Query, id: nat, x: Scored)
    requires s.config.enforcePairing && q.partner.Some? && x in Results(s, q)
    requires
      if q.surface == Directory then Blocked(s.rules, id, q.partner.value)
      else Blocked(s.rules, q.partner.value, id)
    ensures x.candidate.id != id
  {
    ResultsAreTheFirst(s, q);
  }

  // ---- Pinned results ----

  /** A target's position is that of its last pin. */
  lemma {:induction false} PinIndexPoints(pins: seq<Pin>, id: nat)
    ensures id in PinIndex(pins) <==> exists k :: 0 <= k < |pins| && pins[k].target == Some(id)
    ensures id in PinIndex(pins) ==>
              && PinIndex(pins)[id] < |pins| && pins[PinIndex(pins)[id]].target == Some(id)
              && forall k :: PinIndex(pins)[id] < k < |pins| ==> pins[k].target != Some(id)
  {
    if pins != [] {
      var n := |pins| - 1;
      PinIndexPoints(pins[..n], id);
      assert forall k :: 0 <= k < n ==> pins[..n][k] == pins[k];
      if pins[n].target == Some(id) { assert pins[n].target == Some(id); }
    }
  }

  /** The pin names a target and lasts at least until now. */
  ghost predicate Unexpired(p: Pin, now: int) { p.target.Some? && (p.expiresAt == None || now <= p.expiresAt.value) }

  /** All unexpired pins, newest first. */
  ghost function Usable(s: Shop, q: Query): seq<Pin> {
    Without(Sorting.Sort(NewestFirst(), s.pins), NotUsable(q.now))
  }

  lemma UsableNewestFirst(s: Shop, q: Query)
    ensures forall i, j :: 0 <= i < j < |Usable(s, q)| ==> Usable(s, q)[i].createdAt >= Usable(s, q)[j].createdAt
  {
    var le := NewestFirst();
    var sorted := Sorting.Sort(le, s.pins);
    Sorting.SortOrders(le, s.pins);
    Sorting.WithoutKeepsOrder(le, sorted, NotUsable(q.now));
    forall i, j | 0 <= i < j < |Usable(s, q)|
      ensures Usable(s, q)[i].createdAt >= Usable(s, q)[j].createdAt
    {
      assert le(Usable(s, q)[i], Usable(s, q)[j]);
    }
  }

  lemma UsablePins(s: Shop, q: Query)
    ensures forall p :: p in Usable(s, q) <==> p in s.pins && Unexpired(p, q.now)
  {
    var sorted := Sorting.Sort(NewestFirst(), s.pins);
    Sorting.SortPermutes(NewestFirst(), s.pins);
    Sorting.SameMembers(sorted, s.pins);
    WithoutMembers(sorted, NotUsable(q.now));
    assert forall p :: NotUsable(q.now)(p) <==> !Unexpired(p, q.now);
  }

  lemma UsedPinsNewestFirst(s: Shop, q: Query)
    ensures forall i, j :: 0 <= i < j < |UsedPins(s, q)| ==> UsedPins(s, q)[i].createdAt >= UsedPins(s, q)[j].createdAt
    ensures forall p :: p in UsedPins(s, q) ==> p in s.pins && Unexpired(p, q.now)
    ensures !s.config.pinsEnabled ==> UsedPins(s, q) == []
  {
    if s.config.pinsEnabled {
      UsablePins(s, q);
      UsableNewestFirst(s, q);
      assert UsedPins(s, q) <= Usable(s, q);
    }
  }

  /**
   * No newer usable pin is passed over: one that is not used is no newer than any used one, and they are as many
   * as allowed.
   */
  lemma NoNewerPinPassedOver(s: Shop, q: Query, p: Pin)
    requires s.config.pinsEnabled && p in s.pins && Unexpired(p, q.now)
    ensures
      var used := UsedPins(s, q);
      p in used || (|used| == s.config.maxPins && forall u :: u in used ==> u.createdAt >= p.createdAt)
  {
    var usable := Usable(s, q);
    UsablePins(s, q);
    UsableNewestFirst(s, q);
    var used := UsedPins(s, q);
    var j :| 0 <= j < |usable| && usable[j] == p;
    if j >= |used| {
      forall u | u in used
        ensures u.createdAt >= p.createdAt
      {
        var i :| 0 <= i < |used| && used[i] == u;
        assert usable[i].createdAt >= usable[j].createdAt;
      }
    } else {
      assert used[j] == p;
    }
  }

  /** The length of the leading run of pinned results. */
  function PinnedPrefix(r: seq<Scored>): (k: nat)
    ensures k <= |r| && (forall i :: 0 <= i < k ==> r[i].pinned) && (k < |r| ==> !r[k].pinned)
  {
    if r == [] || !r[0].pinned then 0 else 1 + PinnedPrefix(r[1..])
  }

  lemma {:induction false} RisingBelow(f: seq<nat>, bound: nat)
    requires (forall i, j :: 0 <= i < j < |f| ==> f[i] < f[j]) && forall i :: 0 <= i < |f| ==> f[i] < bound
    ensures |f| <= bound
  {
    if f != [] {
      var n := |f| - 1;
      RisingBelow(f[..n], f[n]);
    }
  }

  /** Two pinned results never share a position. */
  lemma PinnedResultsDiffer(s: Shop, q: Query, i: nat, j: nat)
    requires DistinctCandidates(s) && i < j < |Results(s, q)| && Results(s, q)[i].pinned && Results(s, q)[j].pinned
    ensures Results(s, q)[i].index != Results(s, q)[j].index
  {
    var r := Results(s, q);
    var le := Ranked(s.conventions.lower);
    var sorted := Sorting.Sort(le, AllScored(s, q));
    var pins := UsedPins(s, q);
    ScoredOnce(s, q, |s.candidates|);
    Sorting.SortKeepsDistinct(le, AllScored(s, q));
    assert r[i] == sorted[i] && r[j] == sorted[j];
    ResultsAreTheFirst(s, q);
    PinIndexPoints(pins, r[i].candidate.id);
    PinIndexPoints(pins, r[j].candidate.id);
    if r[i].index == r[j].index {
      var a :| 0 <= a < |s.candidates| && s.candidates[a] == r[i].candidate;
      var b :| 0 <= b < |s.candidates| && s.candidates[b] == r[j].candidate;
    }
  }

  lemma PinnedAt(s: Shop, q: Query, i: nat)
    requires i < |Results(s, q)|
    ensures
      var x := Results(s, q)[i];
      var pins := UsedPins(s, q);
      if x.pinned then x.index < |pins| && pins[x.index].target == Some(x.candidate.id) else x.index == 10_000
  {
    ResultsAreTheFirst(s, q);
    assert Results(s, q)[i] in Results(s, q);
    PinIndexPoints(UsedPins(s, q), Results(s, q)[i].candidate.id);
  }

  /**
   * Of two results, the pinned one comes first; two pinned ones come in the order of their pins, newest first; two
   * others by score and name.
   */
  lemma PairInOrder(s: Shop, q: Query, i: nat, j: nat)
    requires DistinctCandidates(s) && i < j < |Results(s, q)|
    ensures
      var x, y := Results(s, q)[i], Results(s, q)[j];
      var pins := UsedPins(s, q);
      && (y.pinned ==> x.pinned && x.index < y.index < |pins| && pins[x.index].createdAt >= pins[y.index].createdAt)
      && (!x.pinned ==> x.score >= y.score)
      && (!x.pinned && x.score == y.score ==>
          NotAfter(s.conventions.lower(x.candidate.name), s.conventions.lower(y.candidate.name)))
  {
    ResultsAreTheFirst(s, q);
    assert Ranked(s.conventions.lower)(Results(s, q)[i], Results(s, q)[j]);
    PinnedAt(s, q, i);
    PinnedAt(s, q, j);
    if Results(s, q)[j].pinned {
      PinnedResultsDiffer(s, q, i, j);
      UsedPinsNewestFirst(s, q);
    }
  }

  /**
   * Pinned results come first, at most as many as configured, each for an unexpired pin and in the order of those pins,
   * newest first; the rest follow by falling score, equal scores by name.
   */
  lemma PinnedComeFirst(s: Shop, q: Query)
    requires DistinctCandidates(s)
    ensures
      var r := Results(s, q);
      var k := PinnedPrefix(r);
      var pins := UsedPins(s, q);
      && k <= s.config.maxPins
      && (forall i :: k <= i < |r| ==> !r[i].pinned)
      && (forall i :: 0 <= i < k ==> r[i].index < |pins| && pins[r[i].index].target == Some(r[i].candidate.id))
      && (forall i, j ::
          0 <= i < j < k ==> r[i].index < r[j].index && pins[r[i].index].createdAt >= pins[r[j].index].createdAt)
      && (forall i, j :: k <= i < j < |r| ==>
            && r[i].score >= r[j].score
            && (r[i].score == r[j].score ==>
                NotAfter(s.conventions.lower(r[i].candidate.name), s.conventions.lower(r[j].candidate.name))))
  {
    var r := Results(s, q);
    var k := PinnedPrefix(r);
    forall i | 0 <= i < k { PinnedAt(s, q, i); }
    forall i: nat, j: nat | i < j < |r| { PairInOrder(s, q, i, j); }
    RisingBelow(seq(k, i requires 0 <= i < k => r[i].index), |UsedPins(s, q)|);
  }

  // ---- Weights ----

  /**
   * A result is pinned exactly if a used pin names it, and then stands at the last such pin's position.
   */
  lemma PinnedIffNamed(s: Shop, q: Query, x: Scored)
    requires x in Results(s, q)
    ensures
      var pins := UsedPins(s, q);
      && (x.pinned <==> exists k :: 0 <= k < |pins| && pins[k].target == Some(x.candidate.id))
      && (x.pinned ==>
            && x.index < |pins| && pins[x.index].target == Some(x.candidate.id)
            && forall k :: x.index < k < |pins| ==> pins[k].target != Some(x.candidate.id))
      && x.score == Score(s, x.candidate)
  {
    ResultsAreTheFirst(s, q);
    PinIndexPoints(UsedPins(s, q), x.candidate.id);
  }

  /** Each weight's share of their sum, or the defaults if they do not add up to anything. */
  lemma WeightsAreShares(w: Weights)
    ensures
      var sum, n := w.popularity + w.recent + w.tagMatch, NormalizedWeights(w);
      && n.popularity + n.recent + n.tagMatch == 1.0
      && (sum > 0.0 ==> n.popularity * sum == w.popularity)
      && (sum > 0.0 ==> n.recent * sum == w.recent && n.tagMatch * sum == w.tagMatch)
      && (sum <= 0.0 ==> n == Weights(0.5, 0.3, 0.2))
  {
    var sum := w.popularity + w.recent + w.tagMatch;
    if sum > 0.0 {
      SharesOf(w.popularity, w.recent, w.tagMatch, sum);
    }
  }

  lemma SharesOf(a: real, b: real, c: real, sum: real)
    requires sum > 0.0 && a + b + c == sum
    ensures Share(a, sum) * sum == a && Share(b, sum) * sum == b && Share(c, sum) * sum == c
    ensures Share(a, sum) + Share(b, sum) + Share(c, sum) == 1.0
  {
    assert Share(a, sum) + Share(b, sum) + Share(c, sum) == Share(a + b + c, sum);
  }

  /**
   * A candidate may appear if policy shows it and, where it counts, no rule of the pair or the item's list forbids it.
   */
  lemma MayAppearIff(s: Shop, q: Query, c: Candidate)
    ensures
      var binds := s.config.enforcePairing && q.partner.Some?;
      var entry := if q.surface == Directory || !binds then c.id else q.partner.value;
      var item := if q.surface == Directory && binds then q.partner.value else c.id;
      MayAppear(s, q, c) <==>
        && c.allowed
        && (binds ==>
              && Rule(entry, item, true) !in s.rules
              && ((exists r :: r in s.rules && r.item == item && !r.blocks) ==> Rule(entry, item, false) in s.rules))
  {
    if s.config.enforcePairing && q.partner.Some? {
      var entry := if q.surface == Directory then c.id else q.partner.value;
      var item := if q.surface == Directory then q.partner.value else c.id;
      assert HasAllowlist(s.rules, item) <==> exists r :: r in s.rules && r.item == item && !r.blocks;
      assert Blocked(s.rules, entry, item) <==> Rule(entry, item, true) in s.rules;
      assert Allowlisted(s.rules, entry, item) <==> Rule(entry, item, false) in s.rules;
    }
  }

  /** Alphabetical order: a prefix comes first, else the smaller character where they first differ. */
  lemma {:induction false} AlphabetByFirstDifference(a: string, b: string)
    ensures NotAfter(a, b) <==> a <= b || exists k :: 0 <= k < |a| && k < |b| && a[..k] == b[..k] && a[k] < b[k]
  {
    if a != [] && b != [] {
      AlphabetByFirstDifference(a[1..], b[1..]);
      assert a == [a[0]] + a[1..] && b == [b[0]] + b[1..];
      if a[0] == b[0] {
        SharedFirst(a, b);
      } else if a[0] < b[0] {
        assert a[..0] == b[..0];
      }
    }
  }

  lemma SharedFirst(a: string, b: string)
    requires a != [] && b != [] && a[0] == b[0]
    ensures a <= b <==> a[1..] <= b[1..]
    ensures (exists k :: 0 <= k < |a| && k < |b| && a[..k] == b[..k] && a[k] < b[k]) <==>
            (exists k :: 0 <= k < |a| - 1 && k < |b| - 1 && a[1..][..k] == b[1..][..k] && a[1..][k] < b[1..][k])
  {
    assert a == [a[0]] + a[1..] && b == [b[0]] + b[1..];
    if k :| 0 <= k < |a| && k < |b| && a[..k] == b[..k] && a[k] < b[k] {
      assert a[1..][..k - 1] == a[..k][1..] == b[..k][1..] == b[1..][..k - 1];
    }
    if k :| 0 <= k < |a| - 1 && k < |b| - 1 && a[1..][..k] == b[1..][..k] && a[1..][k] < b[1..][k] {
      assert a[..k + 1] == [a[0]] + a[1..][..k] == [b[0]] + b[1..][..k] == b[..k + 1];
    }
  }

  /** The score before rounding. */
  function Unrounded(s: Shop, c: Candidate): real { Blend(s.config.modes, NormalizedWeights(s.config.weights), c) }

  /** What a signal's change is worth. */
  function Moved(enabled: bool, weight: real, from: real, to: real): real
  {
    if enabled then (to - from) * weight else 0.0
  }

  /**
   * The score is the rounding of a value that a change of one signal moves by that signal's own normalized weight, if
   * its mode is enabled, and not at all otherwise; without signals it is the rounding of zero.
   */
  lemma EachSignalByItsOwnWeight(s: Shop, c: Candidate, more: real)
    ensures
      var m, w, round := s.config.modes, NormalizedWeights(s.config.weights), s.conventions.round;
      && Score(s, c.(popularity := more)) ==
        round(Unrounded(s, c) + Moved(m.popularity, w.popularity, c.popularity, more))
      && Score(s, c.(recent := more)) == round(Unrounded(s, c) + Moved(m.recent, w.recent, c.recent, more))
      && Score(s, c.(tagMatch := more)) == round(Unrounded(s, c) + Moved(m.tagMatch, w.tagMatch, c.tagMatch, more))
      && Score(s, c.(popularity := 0.0, recent := 0.0, tagMatch := 0.0)) == round(0.0)
  {
    BlendMoves(s.config.modes, NormalizedWeights(s.config.weights), c, more);
  }

  lemma BlendMoves(modes: Modes, w: Weights, c: Candidate, more: real)
    ensures Blend(modes, w, c.(popularity := more)) ==
      Blend(modes, w, c) + Moved(modes.popularity, w.popularity, c.popularity, more)
    ensures Blend(modes, w, c.(recent := more)) == Blend(modes, w, c) + Moved(modes.recent, w.recent, c.recent, more)
    ensures Blend(modes, w, c.(tagMatch := more)) ==
      Blend(modes, w, c) + Moved(modes.tagMatch, w.tagMatch, c.tagMatch, more)
    ensures Blend(modes, w, c.(popularity := 0.0, recent := 0.0, tagMatch := 0.0)) == 0.0
  {
  }

  function Scaled(w: Weights, k: real): Weights { Weights(k * w.popularity, k * w.recent, k * w.tagMatch) }

  lemma Cancel(k: real, a: real, t: real)
    requires k > 0.0 && t > 0.0
    ensures k * t > 0.0 && Share(k * a, k * t) == Share(a, t)
  {
    var x := Share(a, t);
    assert k * a == k * (x * t) == x * (k * t);
  }

  lemma TotalScales(w: Weights, k: real)
    ensures TotalOf(Scaled(w, k)) == k * TotalOf(w)
  {
  }

  lemma ScaledNormalizesAlike(w: Weights, k: real)
    requires k > 0.0 && TotalOf(w) > 0.0
    ensures NormalizedWeights(Scaled(w, k)) == NormalizedWeights(w)
  {
    var t := TotalOf(w);
    TotalScales(w, k);
    Cancel(k, w.popularity, t);
    Cancel(k, w.recent, t);
    Cancel(k, w.tagMatch, t);
  }

  /** Only the proportions of the weights matter, so scaling them leaves every recommendation alone. */
  lemma ScalingWeightsChangesNothing(s: Shop, k: real, q: Query)
    requires k > 0.0 && TotalOf(s.config.weights) > 0.0
    ensures Results(s.(config := s.config.(weights := Scaled(s.config.weights, k))), q) == Results(s, q)
  {
    ScaledNormalizesAlike(s.config.weights, k);
    SameWeightsSameScores(s, s.(config := s.config.(weights := Scaled(s.config.weights, k))), q, |s.candidates|);
  }

  lemma {:induction false} SameWeightsSameScores(s: Shop, s': Shop, q: Query, n: nat)
    requires s' == s.(config := s.config.(weights := s'.config.weights))
    requires NormalizedWeights(s'.config.weights) == NormalizedWeights(s.config.weights) && n <= |s.candidates|
    ensures ScoredUpTo(s', q, n) == ScoredUpTo(s, q, n)
  {
    if n > 0 {
      SameWeightsSameScores(s, s', q, n - 1);
      assert MayAppear(s', q, s.candidates[n - 1]) == MayAppear(s, q, s.candidates[n - 1]);
      assert UsedPins(s', q) == UsedPins(s, q);
      assert Score(s', s.candidates[n - 1]) == Score(s, s.candidates[n - 1]);
    }
  }

  // ---- The loops ----

  method PairingAllowsDirectoryEntry(rules: seq<Rule>, entry: nat, item: nat) returns (allowed: bool)
    ensures allowed == PairingAllowed(rules, entry, item)
  {
    var hasAllowlist, allowlisted := false, false;
    for k := 0 to |rules|
      invariant forall j :: 0 <= j < k ==> rules[j] != Rule(entry, item, true)
      invariant hasAllowlist == exists j :: 0 <= j < k && rules[j].item == item && !rules[j].blocks
      invariant allowlisted == exists j :: 0 <= j < k && rules[j] == Rule(entry, item, false)
    {
      var rule := rules[k];
      if rule.item == item {
        if rule.entry == entry && rule.blocks {
          assert Blocked(rules, entry, item);
          return false;
        }
        if !rule.blocks {
          hasAllowlist := true;
          if rule.entry == entry {
            allowlisted := true;
          }
        }
      }
    }
    return !hasAllowlist || allowlisted;
  }

  method IndexPins(pins: seq<Pin>) returns (index: map<nat, nat>)
    ensures index == PinIndex(pins)
  {
    index := map[];
    for k := 0 to |pins|
      invariant index == PinIndex(pins[..k])
    {
      assert pins[..k + 1][..k] == pins[..k];
      if pins[k].target.Some? {
        index := index[pins[k].target.value := k];
      }
    }
    assert pins[..|pins|] == pins;
  }

  method Recommend(s: Shop, q: Query) returns (results: seq<Scored>)
    ensures results == Results(s, q)
  {
    var index := IndexPins(UsedPins(s, q));
    var scored: seq<Scored> := [];
    for n := 0 to |s.candidates|
      invariant scored == ScoredUpTo(s, q, n)
    {
      var c := s.candidates[n];
      var may := c.allowed;
      if may && s.config.enforcePairing && q.partner.Some? {
        if q.surface == Directory {
          may := PairingAllowsDirectoryEntry(s.rules, c.id, q.partner.value);
        } else {
          may := PairingAllowsDirectoryEntry(s.rules, q.partner.value, c.id);
        }
      }
      if may {
        scored := scored + [Scoring(s, index, c)];
      }
    }
    scored := Sorting.Sort(Ranked(s.conventions.lower), scored);
    results := scored[..Min(q.limit, |scored|)];
  }
}

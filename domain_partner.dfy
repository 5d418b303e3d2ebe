/**
 * The matching pipeline: keep the partners whose operating radius reaches
 * the customer, pair each with its distance, rank the pairs by rating
 * (higher first) and then by distance (nearer first), and drop the
 * distances again.
 */
module Domain {
  import opened Wrappers
  import opened Entities
  import opened Db

  /** A partner paired with its distance in km to the customer. */
  datatype Match = Match(partner: Partner, distance: real)

  /** What a search is asked for: a material and the customer's position. */
  datatype GetPartnersOpts = GetPartnersOpts(
    Material: string,
    CustomerAddressLong: real,
    CustomerAddressLat: real)

  /**
   * The great-circle distance in km between (lat1, lng1) and (lat2, lng2).
   * Its floating-point trigonometry is not part of this model, so every
   * operation that needs it takes it as a parameter.
   */
  type DistanceFn = (real, real, real, real) -> real

  /** The distance from the customer to the partner's address, as the filter computes it. */
  function DistanceTo(distance: DistanceFn, customerLat: real, customerLong: real, p: Partner): real
  {
    distance(customerLat, customerLong, p.Address.Latitude, p.Address.Longitude)
  }

  /** The partner's radius reaches strictly beyond the customer. */
  predicate InRange(distance: DistanceFn, customerLat: real, customerLong: real, p: Partner)
  {
    DistanceTo(distance, customerLat, customerLong, p) < p.OperatingRadius as real
  }

  /** The match the filter builds for `p`. */
  function MatchFor(distance: DistanceFn, customerLat: real, customerLong: real, p: Partner): Match
  {
    Match(p, DistanceTo(distance, customerLat, customerLong, p))
  }

  /** What the filter loop collects: a match for each partner in range, input order kept. */
  function Eligible(ps: seq<Partner>, customerLat: real, customerLong: real, distance: DistanceFn): seq<Match>
  {
    if ps == [] then []
    else
      var last := ps[|ps| - 1];
      Eligible(ps[..|ps| - 1], customerLat, customerLong, distance) +
        (if InRange(distance, customerLat, customerLong, last)
         then [MatchFor(distance, customerLat, customerLong, last)] else [])
  }

  /** The partners of a list of matches, in the same order. */
  function PartnersOf(ms: seq<Match>): seq<Partner>
  {
    seq(|ms|, i requires 0 <= i < |ms| => ms[i].partner)
  }

  // ---------------------------------------------------------------------
  // Filtering by operating radius

  /**
   * A match is produced exactly for each partner in range, and it carries
   * that partner's own distance.
   */
  lemma {:induction false} EligibleMembership(ps: seq<Partner>, customerLat: real, customerLong: real, distance: DistanceFn)
    ensures forall m :: m in Eligible(ps, customerLat, customerLong, distance) ==>
      m.partner in ps && InRange(distance, customerLat, customerLong, m.partner) &&
      m == MatchFor(distance, customerLat, customerLong, m.partner)
    ensures forall p :: p in ps && InRange(distance, customerLat, customerLong, p) ==>
      MatchFor(distance, customerLat, customerLong, p) in Eligible(ps, customerLat, customerLong, distance)
  {
    if ps != [] {
      var init := ps[..|ps| - 1];
      EligibleMembership(init, customerLat, customerLong, distance);
      assert ps == init + [ps[|ps| - 1]];
    }
  }

  /** Filtering keeps input order: it distributes over concatenation. */
  lemma {:induction false} EligibleConcat(a: seq<Partner>, b: seq<Partner>, customerLat: real, customerLong: real, distance: DistanceFn)
    ensures Eligible(a + b, customerLat, customerLong, distance) ==
      Eligible(a, customerLat, customerLong, distance) + Eligible(b, customerLat, customerLong, distance)
  {
    if b == [] {
      assert a + b == a;
    } else {
      EligibleConcat(a, b[..|b| - 1], customerLat, customerLong, distance);
      assert (a + b)[..|a + b| - 1] == a + b[..|b| - 1];
    }
  }

  /** Filtering never produces more matches than it was given partners. */
  lemma {:induction false} EligibleLength(ps: seq<Partner>, customerLat: real, customerLong: real, distance: DistanceFn)
    ensures |Eligible(ps, customerLat, customerLong, distance)| <= |ps|
  {
    if ps != [] {
      EligibleLength(ps[..|ps| - 1], customerLat, customerLong, distance);
    }
  }

  /** The radius is exclusive: a partner exactly at its radius is dropped. */
  lemma RadiusBoundaryExcluded(p: Partner, customerLat: real, customerLong: real, distance: DistanceFn)
    requires DistanceTo(distance, customerLat, customerLong, p) == p.OperatingRadius as real
    ensures Eligible([p], customerLat, customerLong, distance) == []
  {
    assert [p][..0] == [];
  }

  /**
   * A partner about 7.72 km away is kept with radius 10 and dropped with
   * radius 5.
   */
  lemma RadiusCutAtTestDistance(p: Partner, customerLat: real, customerLong: real, distance: DistanceFn)
    requires DistanceTo(distance, customerLat, customerLong, p) == 7.72
    ensures p.OperatingRadius == 10 ==> Eligible([p], customerLat, customerLong, distance) == [Match(p, 7.72)]
    ensures p.OperatingRadius == 5 ==> Eligible([p], customerLat, customerLong, distance) == []
  {
    assert [p][..0] == [];
  }

  /** `PartnersOf` keeps length and takes each match's partner at the same index. */
  lemma PartnersOfAt(ms: seq<Match>)
    ensures |PartnersOf(ms)| == |ms|
    ensures forall i :: 0 <= i < |ms| ==> PartnersOf(ms)[i] == ms[i].partner
  {
  }

  lemma PartnersOfConcat(a: seq<Match>, b: seq<Match>)
    ensures PartnersOf(a + b) == PartnersOf(a) + PartnersOf(b)
  {
  }

  /** Taking one match out of a list takes its partner out of the partners. */
  lemma PartnersOfRemove(t: seq<Match>, k: int)
    requires 0 <= k < |t|
    ensures multiset(t) == multiset(t[..k] + t[k + 1..]) + multiset{t[k]}
    ensures multiset(PartnersOf(t)) == multiset(PartnersOf(t[..k] + t[k + 1..])) + multiset{t[k].partner}
  {
    var a, x, b := t[..k], t[k], t[k + 1..];
    assert t == a + [x] + b;
    assert multiset(t) == multiset(a) + multiset{x} + multiset(b);
    PartnersOfConcat(a, [x]);
    PartnersOfConcat(a + [x], b);
    PartnersOfConcat(a, b);
    var pa, pb := PartnersOf(a), PartnersOf(b);
    assert PartnersOf(t) == pa + [x.partner] + pb;
    assert PartnersOf(a + b) == pa + pb;
    assert multiset(pa + [x.partner] + pb) == multiset(pa) + multiset{x.partner} + multiset(pb);
  }

  /** Reordering the matches reorders their partners the same way. */
  lemma {:induction false} PartnersOfPermutation(s: seq<Match>, t: seq<Match>)
    requires multiset(s) == multiset(t)
    ensures multiset(PartnersOf(s)) == multiset(PartnersOf(t))
  {
    if s != [] {
      var init, x := s[..|s| - 1], s[|s| - 1];
      assert s == init + [x];
      assert x in multiset(t);
      var k :| 0 <= k < |t| && t[k] == x;
      var rest := t[..k] + t[k + 1..];
      PartnersOfRemove(t, k);
      MultisetCancel(multiset(init), multiset(rest), x);
      PartnersOfPermutation(init, rest);
      PartnersOfConcat(init, [x]);
    }
  }

  lemma MultisetCancel<T>(a: multiset<T>, b: multiset<T>, x: T)
    requires a + multiset{x} == b + multiset{x}
    ensures a == b
  {
    assert a == (a + multiset{x}) - multiset{x};
  }

  // ---------------------------------------------------------------------
  // Ranking

  /**
   * `Less` as written in the source: true when the first rating is higher,
   * and otherwise whenever the first distance is smaller, whatever the
   * ratings are.
   */
  predicate LessAsWritten(rd: seq<Match>, i: int, j: int)
    requires 0 <= i < |rd| && 0 <= j < |rd|
  {
    if rd[i].partner.Rating > rd[j].partner.Rating then true
    else rd[i].distance < rd[j].distance
  }

  /**
   * The intended ranking key: a higher rating first, and among equal
   * ratings the nearer partner first.
   */
  predicate Before(a: Match, b: Match)
  {
    a.partner.Rating > b.partner.Rating ||
    (a.partner.Rating == b.partner.Rating && a.distance < b.distance)
  }

  /**
   * `LessAsWritten` disagrees with the intended key exactly when the first
   * match has the lower rating and the smaller distance.
   */
  lemma LessAsWrittenDiffersFromBefore(rd: seq<Match>, i: int, j: int)
    requires 0 <= i < |rd| && 0 <= j < |rd|
    ensures LessAsWritten(rd, i, j) != Before(rd[i], rd[j]) <==>
      rd[i].partner.Rating < rd[j].partner.Rating && rd[i].distance < rd[j].distance
  {
  }

  /**
   * `LessAsWritten` is not asymmetric: a lower-rated but nearer partner is
   * "less" than a higher-rated farther one, and the other way round too.
   */
  lemma LessAsWrittenNotAsymmetric()
    ensures
      var near4 := Match(Partner("123", "", ["wood"], Address(48.4021, 11.7511), 10, 4), 2.0);
      var far5 := Match(Partner("234", "", ["wood"], Address(48.2186, 11.6236), 10, 5), 7.0);
      LessAsWritten([near4, far5], 0, 1) && LessAsWritten([near4, far5], 1, 0)
  {
  }

  /** The intended key is a strict weak order, as a sort requires. */
  lemma BeforeIsStrictWeakOrder(a: Match, b: Match, c: Match)
    ensures !Before(a, a)
    ensures Before(a, b) ==> !Before(b, a)
    ensures Before(a, b) && Before(b, c) ==> Before(a, c)
    ensures !Before(a, b) && !Before(b, a) && !Before(b, c) && !Before(c, b) ==>
      !Before(a, c) && !Before(c, a)
  {
  }

  /** No element is ranked before one that precedes it. */
  predicate Sorted(s: seq<Match>)
  {
    forall i, j :: 0 <= i < j < |s| ==> !Before(s[j], s[i])
  }

  /** Partners ranked by the key of the match the filter builds for each. */
  predicate RankedFor(ps: seq<Partner>, customerLat: real, customerLong: real, distance: DistanceFn)
  {
    forall i, j :: 0 <= i < j < |ps| ==>
      !Before(MatchFor(distance, customerLat, customerLong, ps[j]), MatchFor(distance, customerLat, customerLong, ps[i]))
  }

  /** Any two different partners differ in rating or in distance. */
  predicate KeysDistinct(ps: seq<Partner>, customerLat: real, customerLong: real, distance: DistanceFn)
  {
    forall i, j :: 0 <= i < |ps| && 0 <= j < |ps| && ps[i] != ps[j] ==>
      Before(MatchFor(distance, customerLat, customerLong, ps[i]), MatchFor(distance, customerLat, customerLong, ps[j])) ||
      Before(MatchFor(distance, customerLat, customerLong, ps[j]), MatchFor(distance, customerLat, customerLong, ps[i]))
  }

  /**
   * The ranking is deterministic up to ties: two rankings of the same
   * partners are equal when no two different partners tie on both rating
   * and distance.
   */
  lemma {:induction false} RankingUnique(r1: seq<Partner>, r2: seq<Partner>, customerLat: real, customerLong: real, distance: DistanceFn)
    requires RankedFor(r1, customerLat, customerLong, distance) && RankedFor(r2, customerLat, customerLong, distance)
    requires multiset(r1) == multiset(r2)
    requires KeysDistinct(r1, customerLat, customerLong, distance)
    ensures r1 == r2
  {
    if r1 == [] {
      assert |r2| == |multiset(r2)| == 0;
    } else {
      assert |r2| == |multiset(r2)| == |r1|;
      RankingHeadsAgree(r1, r2, customerLat, customerLong, distance);
      var x := r1[0];
      RankedTail(r1, customerLat, customerLong, distance);
      RankedTail(r2, customerLat, customerLong, distance);
      assert r1 == [x] + r1[1..] && r2 == [x] + r2[1..];
      assert multiset(r1[1..]) + multiset{x} == multiset(r1) == multiset(r2) == multiset(r2[1..]) + multiset{x};
      MultisetCancel(multiset(r1[1..]), multiset(r2[1..]), x);
      RankingUnique(r1[1..], r2[1..], customerLat, customerLong, distance);
    }
  }

  /** Two rankings of the same partners with distinct keys start alike. */
  lemma RankingHeadsAgree(r1: seq<Partner>, r2: seq<Partner>, customerLat: real, customerLong: real, distance: DistanceFn)
    requires r1 != [] && r2 != []
    requires RankedFor(r1, customerLat, customerLong, distance) && RankedFor(r2, customerLat, customerLong, distance)
    requires multiset(r1) == multiset(r2)
    requires KeysDistinct(r1, customerLat, customerLong, distance)
    ensures r1[0] == r2[0]
  {
    var x, y := r1[0], r2[0];
    assert y in multiset(r1) && x in multiset(r2);
    var k :| 0 <= k < |r1| && r1[k] == y;
    var k' :| 0 <= k' < |r2| && r2[k'] == x;
    if k != 0 && k' != 0 {
      var mx := MatchFor(distance, customerLat, customerLong, x);
      var my := MatchFor(distance, customerLat, customerLong, y);
      assert !Before(my, mx) && !Before(mx, my);
      assert r1[0] == r1[k];
    }
  }

  /** Dropping the first partner keeps a ranking ranked and its keys distinct. */
  lemma RankedTail(r: seq<Partner>, customerLat: real, customerLong: real, distance: DistanceFn)
    requires r != []
    ensures RankedFor(r, customerLat, customerLong, distance) ==> RankedFor(r[1..], customerLat, customerLong, distance)
    ensures KeysDistinct(r, customerLat, customerLong, distance) ==> KeysDistinct(r[1..], customerLat, customerLong, distance)
  {
    assert forall i :: 0 <= i < |r[1..]| ==> r[1..][i] == r[i + 1];
  }

  /**
   * The ranking the tests expect: with partners 345 (rating 5) and 234
   * (rating 4) at the same distance and 123 (rating 4) farther away, any
   * ranking of the three is 345, 234, 123.
   */
  lemma RankingOfTestScenario(result: seq<Partner>, p123: Partner, p234: Partner, p345: Partner,
                              customerLat: real, customerLong: real, distance: DistanceFn)
    requires p123.ID == "123" && p234.ID == "234" && p345.ID == "345"
    requires p123.Rating == 4 && p234.Rating == 4 && p345.Rating == 5
    requires DistanceTo(distance, customerLat, customerLong, p234) == DistanceTo(distance, customerLat, customerLong, p345)
    requires DistanceTo(distance, customerLat, customerLong, p234) < DistanceTo(distance, customerLat, customerLong, p123)
    requires RankedFor(result, customerLat, customerLong, distance)
    requires multiset(result) == multiset{p123, p234, p345}
    ensures result == [p345, p234, p123]
  {
    var expected := [p345, p234, p123];
    assert multiset(expected) == multiset{p123, p234, p345};
    RankingUnique(expected, result, customerLat, customerLong, distance);
  }

  /** Exchanges the matches at `i` and `j`; nothing else changes. */
  method Swap(rd: array<Match>, i: int, j: int)
    requires 0 <= i < rd.Length && 0 <= j < rd.Length
    modifies rd
    ensures rd[i] == old(rd[j]) && rd[j] == old(rd[i])
    ensures forall k :: 0 <= k < rd.Length && k != i && k != j ==> rd[k] == old(rd[k])
    ensures multiset(rd[..]) == old(multiset(rd[..]))
  {
    rd[i], rd[j] := rd[j], rd[i];
  }

  /** Sorts `rd` in place by the intended key, by insertion with adjacent swaps. */
  method SortByRatingAndDistance(rd: array<Match>)
    modifies rd
    ensures Sorted(rd[..])
    ensures multiset(rd[..]) == old(multiset(rd[..]))
  {
    var i := 0;
    while i < rd.Length
      invariant 0 <= i <= rd.Length
      invariant Sorted(rd[..i])
      invariant multiset(rd[..]) == old(multiset(rd[..]))
    {
      var j := i;
      while j > 0 && Before(rd[j], rd[j - 1])
        invariant 0 <= j <= i
        invariant forall p, q :: 0 <= p < q <= i && p != j && q != j ==> !Before(rd[q], rd[p])
        invariant forall q :: j < q <= i ==> Before(rd[j], rd[q])
        invariant multiset(rd[..]) == old(multiset(rd[..]))
      {
        Swap(rd, j - 1, j);
        j := j - 1;
      }
      i := i + 1;
    }
  }

  // ---------------------------------------------------------------------
  // Conversions

  /** Pairs each in-range partner with its distance, in input order. */
  method ConvertPartnersToMatchesAndFilterByOperatingRadius(
    partners: seq<Partner>, customerLat: real, customerLong: real, distance: DistanceFn)
    returns (matches: seq<Match>)
    ensures matches == Eligible(partners, customerLat, customerLong, distance)
  {
    matches := [];
    var i := 0;
    while i < |partners|
      invariant 0 <= i <= |partners|
      invariant matches == Eligible(partners[..i], customerLat, customerLong, distance)
    {
      var partner := partners[i];
      var d := distance(customerLat, customerLong, partner.Address.Latitude, partner.Address.Longitude);
      if d < partner.OperatingRadius as real {
        matches := matches + [Match(partner, d)];
      }
      assert partners[..i + 1][..i] == partners[..i];
      i := i + 1;
    }
    assert partners[..i] == partners;
  }

  /** Strips the distances, keeping order. */
  method ConvertMatchesToPartners(matches: seq<Match>) returns (partners: seq<Partner>)
    ensures partners == PartnersOf(matches)
  {
    partners := [];
    var i := 0;
    while i < |matches|
      invariant 0 <= i <= |matches|
      invariant partners == PartnersOf(matches[..i])
    {
      partners := partners + [matches[i].partner];
      assert matches[..i + 1][..i] == matches[..i];
      i := i + 1;
    }
    assert matches[..i] == matches;
  }

  // ---------------------------------------------------------------------
  // The service

  /** The domain service over the partner store. */
  class PartnerService {
    const repository: PartnerInMemoryRepository

    constructor (repository: PartnerInMemoryRepository)
      ensures this.repository == repository
    {
      this.repository := repository;
    }

    /**
     * The partners listing `opts.Material` whose radius reaches the customer,
     * ranked by rating and then distance.
     */
    method GetPartners(opts: GetPartnersOpts, distance: DistanceFn) returns (result: seq<Partner>)
      ensures multiset(result) == multiset(PartnersOf(Eligible(
        ByMaterial(repository.partners, opts.Material), opts.CustomerAddressLat, opts.CustomerAddressLong, distance)))
      ensures RankedFor(result, opts.CustomerAddressLat, opts.CustomerAddressLong, distance)
    {
      var partners := repository.GetPartnersByMaterial(opts.Material);
      var matches := ConvertPartnersToMatchesAndFilterByOperatingRadius(
        partners, opts.CustomerAddressLat, opts.CustomerAddressLong, distance);
      var rd := new Match[|matches|](k requires 0 <= k < |matches| => matches[k]);
      assert rd[..] == matches;
      SortByRatingAndDistance(rd);
      result := ConvertMatchesToPartners(rd[..]);
      SortedMatchesRankPartners(rd[..], partners, opts.CustomerAddressLat, opts.CustomerAddressLong, distance);
    }

    /** The store's answer for `id`, passed on unchanged. */
    method GetPartner(id: string) returns (partner: Partner, err: Option<Error>)
      ensures (partner, err) == LookupByID(repository.partners, id)
    {
      partner, err := repository.GetPartnerByID(id);
    }
  }

  /**
   * Sorting the eligible matches and stripping their distances ranks the
   * eligible partners.
   */
  lemma SortedMatchesRankPartners(sorted: seq<Match>, candidates: seq<Partner>,
                                  customerLat: real, customerLong: real, distance: DistanceFn)
    requires Sorted(sorted)
    requires multiset(sorted) == multiset(Eligible(candidates, customerLat, customerLong, distance))
    ensures multiset(PartnersOf(sorted)) == multiset(PartnersOf(Eligible(candidates, customerLat, customerLong, distance)))
    ensures RankedFor(PartnersOf(sorted), customerLat, customerLong, distance)
  {
    PartnersOfPermutation(sorted, Eligible(candidates, customerLat, customerLong, distance));
    EligibleMembership(candidates, customerLat, customerLong, distance);
    forall k | 0 <= k < |sorted|
      ensures MatchFor(distance, customerLat, customerLong, PartnersOf(sorted)[k]) == sorted[k]
    {
      assert sorted[k] in multiset(sorted);
    }
  }

  /**
   * The search never returns more partners than the store holds for the
   * material, and returns none when it holds none.
   */
  lemma SearchBounded(candidates: seq<Partner>, result: seq<Partner>, customerLat: real, customerLong: real, distance: DistanceFn)
    requires multiset(result) == multiset(PartnersOf(Eligible(candidates, customerLat, customerLong, distance)))
    ensures |result| <= |candidates|
    ensures candidates == [] ==> result == []
  {
    var e := Eligible(candidates, customerLat, customerLong, distance);
    EligibleLength(candidates, customerLat, customerLong, distance);
    PartnersOfAt(e);
    assert |result| == |multiset(result)| == |PartnersOf(e)|;
  }
}

/**
 * The in-memory partner store: a list of partners searched by material and
 * by id. Neither operation changes the stored list.
 */
module Db {
  import opened Wrappers
  import opened Entities

  /** How many entries of `ms` are exactly `material`. */
  function Count(ms: seq<string>, material: string): nat
  {
    if ms == [] then 0
    else Count(ms[..|ms| - 1], material) + (if ms[|ms| - 1] == material then 1 else 0)
  }

  /**
   * What the inner loop over `ms` appends for partner `p`: one copy of `p`
   * for every entry equal to `material`.
   */
  function Copies(p: Partner, ms: seq<string>, material: string): seq<Partner>
  {
    if ms == [] then []
    else Copies(p, ms[..|ms| - 1], material) + (if ms[|ms| - 1] == material then [p] else [])
  }

  /** What the nested loops of `GetPartnersByMaterial` collect, store order kept. */
  function ByMaterial(ps: seq<Partner>, material: string): seq<Partner>
  {
    if ps == [] then []
    else
      var last := ps[|ps| - 1];
      ByMaterial(ps[..|ps| - 1], material) + Copies(last, last.ExperiencedMaterial, material)
  }

  /** The first partner with the given id, or the zero partner and `ErrRecordNotExist`. */
  function LookupByID(ps: seq<Partner>, id: string): (Partner, Option<Error>)
  {
    if ps == [] then (ZeroPartner, Some(ErrRecordNotExist))
    else if ps[0].ID == id then (ps[0], None)
    else LookupByID(ps[1..], id)
  }

  predicate NoDuplicates(ms: seq<string>)
  {
    forall i, j :: 0 <= i < j < |ms| ==> ms[i] != ms[j]
  }

  /** `Copies` is `Count(ms, material)` copies of `p` and nothing else. */
  lemma {:induction false} CopiesAreCount(p: Partner, ms: seq<string>, material: string)
    ensures |Copies(p, ms, material)| == Count(ms, material)
    ensures forall x :: x in Copies(p, ms, material) ==> x == p
    ensures multiset(Copies(p, ms, material))[p] == Count(ms, material)
  {
    if ms != [] {
      CopiesAreCount(p, ms[..|ms| - 1], material);
    }
  }

  /** `material` occurs in `ms` exactly when it is counted at least once. */
  lemma {:induction false} CountPositive(ms: seq<string>, material: string)
    ensures Count(ms, material) > 0 <==> material in ms
  {
    if ms != [] {
      var init := ms[..|ms| - 1];
      CountPositive(init, material);
      assert ms == init + [ms[|ms| - 1]];
    }
  }

  /** In a list without repeats, `material` is counted at most once. */
  lemma {:induction false} CountDuplicateFree(ms: seq<string>, material: string)
    requires NoDuplicates(ms)
    ensures Count(ms, material) == if material in ms then 1 else 0
  {
    if ms != [] {
      var init := ms[..|ms| - 1];
      CountDuplicateFree(init, material);
      CountPositive(init, material);
      assert ms == init + [ms[|ms| - 1]];
      if ms[|ms| - 1] == material {
        assert forall i :: 0 <= i < |init| ==> init[i] != material by {
          forall i | 0 <= i < |init| ensures init[i] != material {
            assert init[i] == ms[i];
          }
        }
      }
    }
  }

  /** Every partner returned lists the material and comes from the store. */
  lemma {:induction false} ByMaterialSound(ps: seq<Partner>, material: string)
    ensures forall p :: p in ByMaterial(ps, material) ==> p in ps && material in p.ExperiencedMaterial
  {
    if ps != [] {
      var init, last := ps[..|ps| - 1], ps[|ps| - 1];
      ByMaterialSound(init, material);
      CopiesAreCount(last, last.ExperiencedMaterial, material);
      CountPositive(last.ExperiencedMaterial, material);
      assert ps == init + [last];
    }
  }

  /** Every stored partner that lists the material is returned. */
  lemma {:induction false} ByMaterialComplete(ps: seq<Partner>, material: string)
    ensures forall p :: p in ps && material in p.ExperiencedMaterial ==> p in ByMaterial(ps, material)
  {
    if ps != [] {
      var init, last := ps[..|ps| - 1], ps[|ps| - 1];
      ByMaterialComplete(init, material);
      CopiesAreCount(last, last.ExperiencedMaterial, material);
      CountPositive(last.ExperiencedMaterial, material);
      assert ps == init + [last];
    }
  }

  /**
   * Each stored copy of `p` is returned once per occurrence of the material
   * in its list.
   */
  lemma {:induction false} ByMaterialMultiplicity(ps: seq<Partner>, material: string, p: Partner)
    ensures multiset(ByMaterial(ps, material))[p] == Count(p.ExperiencedMaterial, material) * multiset(ps)[p]
  {
    if ps != [] {
      var init, last := ps[..|ps| - 1], ps[|ps| - 1];
      ByMaterialMultiplicity(init, material, p);
      ByMaterialLastStep(ps, material, p);
      if last == p {
        MulSucc(Count(p.ExperiencedMaterial, material), multiset(init)[p]);
      }
    }
  }

  /** Appending a stored partner adds its copies to the result and one to the store. */
  lemma ByMaterialLastStep(ps: seq<Partner>, material: string, p: Partner)
    requires ps != []
    ensures var init, last := ps[..|ps| - 1], ps[|ps| - 1];
      && multiset(ps)[p] == multiset(init)[p] + (if last == p then 1 else 0)
      && multiset(ByMaterial(ps, material))[p] ==
         multiset(ByMaterial(init, material))[p] + (if last == p then Count(p.ExperiencedMaterial, material) else 0)
  {
    var init, last := ps[..|ps| - 1], ps[|ps| - 1];
    var copies := Copies(last, last.ExperiencedMaterial, material);
    CopiesAreCount(last, last.ExperiencedMaterial, material);
    assert ps == init + [last];
    assert ByMaterial(ps, material) == ByMaterial(init, material) + copies;
    if last != p {
      assert p !in copies;
    }
  }

  lemma MulSucc(c: nat, m: nat)
    ensures c * (m + 1) == c * m + c
  {
  }

  /**
   * With duplicate-free material lists, each stored copy of a partner that
   * lists the material is returned exactly once.
   */
  lemma ByMaterialOncePerStoredCopy(ps: seq<Partner>, material: string, p: Partner)
    requires NoDuplicates(p.ExperiencedMaterial)
    ensures multiset(ByMaterial(ps, material))[p] == if material in p.ExperiencedMaterial then multiset(ps)[p] else 0
  {
    ByMaterialMultiplicity(ps, material, p);
    CountDuplicateFree(p.ExperiencedMaterial, material);
  }

  /** The search keeps store order: it distributes over concatenation. */
  lemma {:induction false} ByMaterialConcat(a: seq<Partner>, b: seq<Partner>, material: string)
    ensures ByMaterial(a + b, material) == ByMaterial(a, material) + ByMaterial(b, material)
  {
    if b == [] {
      assert a + b == a;
    } else {
      var init, last := b[..|b| - 1], b[|b| - 1];
      ByMaterialConcat(a, init, material);
      assert (a + b)[..|a + b| - 1] == a + init;
    }
  }

  /** A store in which nobody lists the material yields nothing. */
  lemma {:induction false} ByMaterialNone(ps: seq<Partner>, material: string)
    requires forall p :: p in ps ==> material !in p.ExperiencedMaterial
    ensures ByMaterial(ps, material) == []
  {
    if ps != [] {
      var init, last := ps[..|ps| - 1], ps[|ps| - 1];
      assert ps == init + [last];
      ByMaterialNone(init, material);
      CopiesAreCount(last, last.ExperiencedMaterial, material);
      CountPositive(last.ExperiencedMaterial, material);
    }
  }

  /** A partner that lists the material twice is returned twice. */
  lemma DuplicateListingReturnedTwice()
    ensures
      var p := Partner("345", "", ["wood", "wood"], Address(0.0, 0.0), 0, 0);
      ByMaterial([p], "wood") == [p, p]
  {
    var p := Partner("345", "", ["wood", "wood"], Address(0.0, 0.0), 0, 0);
    var ms: seq<string> := ["wood", "wood"];
    assert [p][..0] == [];
    assert ms[..1] == ["wood"] && ms[..1][..0] == [];
    assert Copies(p, ms[..1], "wood") == [p];
    assert Copies(p, ms, "wood") == [p, p];
  }

  /**
   * The lookup returns the first stored partner with that id and no error,
   * or, when no partner has it, the zero partner and `ErrRecordNotExist`.
   */
  lemma {:induction false} LookupByIDFirstMatch(ps: seq<Partner>, id: string)
    ensures LookupByID(ps, id).1 == None <==> exists k :: 0 <= k < |ps| && ps[k].ID == id
    ensures LookupByID(ps, id).1 == None ==>
      exists k :: 0 <= k < |ps| && ps[k] == LookupByID(ps, id).0 && ps[k].ID == id &&
        forall j :: 0 <= j < k ==> ps[j].ID != id
    ensures LookupByID(ps, id).1 != None ==> LookupByID(ps, id) == (ZeroPartner, Some(ErrRecordNotExist))
  {
    if ps != [] && ps[0].ID != id {
      LookupByIDFirstMatch(ps[1..], id);
      if LookupByID(ps, id).1 == None {
        var k :| 0 <= k < |ps[1..]| && ps[1..][k] == LookupByID(ps, id).0 && ps[1..][k].ID == id &&
          forall j :: 0 <= j < k ==> ps[1..][j].ID != id;
        assert ps[k + 1] == LookupByID(ps, id).0;
        assert forall j :: 0 <= j < k + 1 ==> ps[j].ID != id by {
          forall j | 0 <= j < k + 1 ensures ps[j].ID != id {
            if j > 0 { assert ps[j] == ps[1..][j - 1]; }
          }
        }
      }
      if exists k :: 0 <= k < |ps| && ps[k].ID == id {
        var k :| 0 <= k < |ps| && ps[k].ID == id;
        assert ps[1..][k - 1].ID == id;
      }
    }
  }

  /** An empty store reports `ErrRecordNotExist` for every id. */
  lemma EmptyStoreNotFound(id: string)
    ensures LookupByID([], id) == (ZeroPartner, Some(ErrRecordNotExist))
  {
  }

  /** The in-memory store; its partner list is read, never written, by the searches. */
  class PartnerInMemoryRepository {
    var partners: seq<Partner>

    constructor (partners: seq<Partner>)
      ensures this.partners == partners
    {
      this.partners := partners;
    }

    /** Partners listing `material`, once per listing, in store order. */
    method GetPartnersByMaterial(material: string) returns (filtered: seq<Partner>)
      ensures filtered == ByMaterial(partners, material)
    {
      filtered := [];
      var i := 0;
      while i < |partners|
        invariant 0 <= i <= |partners|
        invariant filtered == ByMaterial(partners[..i], material)
      {
        var partner := partners[i];
        ghost var before := filtered;
        var j := 0;
        while j < |partner.ExperiencedMaterial|
          invariant 0 <= j <= |partner.ExperiencedMaterial|
          invariant filtered == before + Copies(partner, partner.ExperiencedMaterial[..j], material)
        {
          if partner.ExperiencedMaterial[j] == material {
            filtered := filtered + [partner];
          }
          assert partner.ExperiencedMaterial[..j + 1][..j] == partner.ExperiencedMaterial[..j];
          j := j + 1;
        }
        assert partner.ExperiencedMaterial[..j] == partner.ExperiencedMaterial;
        assert partners[..i + 1][..i] == partners[..i];
        i := i + 1;
      }
      assert partners[..i] == partners;
    }

    /** The first partner with `id`; the zero partner and `ErrRecordNotExist` when none. */
    method GetPartnerByID(id: string) returns (partner: Partner, err: Option<Error>)
      ensures (partner, err) == LookupByID(partners, id)
    {
      var i := 0;
      while i < |partners|
        invariant 0 <= i <= |partners|
        invariant LookupByID(partners[i..], id) == LookupByID(partners, id)
      {
        assert partners[i..][1..] == partners[i + 1..];
        if partners[i].ID == id {
          return partners[i], None;
        }
        i := i + 1;
      }
      return ZeroPartner, Some(ErrRecordNotExist);
    }
  }
}

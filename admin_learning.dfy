/**
 * components/admin/learning/index.tsx: the list of learning materials, its search, and the add
 * and delete handlers, which change only the page's own list (the hard-coded sample list the
 * page starts from is the constructor's parameter).
 */
module AdminLearning {
  import opened JsText
  import opened Seqs

  datatype Material = Material(id: string, title: string, content: string, category: string)

  /** The fields of the "add" dialog. */
  datatype Draft = Draft(title: string, content: string, category: string)

  const EmptyDraft := Draft("", "", "")

  /** A material is listed when its title or its category contains the term, ignoring case. */
  predicate Matches(m: Material, term: string) {
    IncludesIgnoringCase(m.title, term) || IncludesIgnoringCase(m.category, term)
  }

  /** `filteredMaterials`: the matching materials, in list order. */
  function FilteredMaterials(ms: seq<Material>, term: string): (r: seq<Material>)
    ensures IsSubsequence(r, ms)
    ensures forall m :: m in r <==> m in ms && Matches(m, term)
    ensures forall m :: multiset(r)[m] == if Matches(m, term) then multiset(ms)[m] else 0
  {
    FilterMultiset(ms, m => Matches(m, term));
    FilterIsSubsequence(ms, m => Matches(m, term));
    forall m ensures m in Filter(ms, m => Matches(m, term)) <==> m in ms && Matches(m, term) {
      FilterMembership(ms, m => Matches(m, term), m);
    }
    Filter(ms, m => Matches(m, term))
  }

  /** The list after `handleAddMaterial`: the draft appended with id `String(materials.length + 1)`. */
  function Added(ms: seq<Material>, d: Draft): (r: seq<Material>)
    ensures |r| == |ms| + 1 && r[..|ms|] == ms
    ensures r[|ms|] == Material(NatToString(|ms| + 1), d.title, d.content, d.category)
  {
    ms + [Material(NatToString(|ms| + 1), d.title, d.content, d.category)]
  }

  /** The list after `handleDeleteMaterial(id)`: every material with another id, in order. */
  function Deleted(ms: seq<Material>, id: string): (r: seq<Material>)
    ensures IsSubsequence(r, ms)
    ensures forall m :: m in r <==> m in ms && m.id != id
    ensures forall m :: multiset(r)[m] == if m.id != id then multiset(ms)[m] else 0
  {
    FilterMultiset(ms, (m: Material) => m.id != id);
    FilterIsSubsequence(ms, (m: Material) => m.id != id);
    forall m ensures m in Filter(ms, (m: Material) => m.id != id) <==> m in ms && m.id != id {
      FilterMembership(ms, (m: Material) => m.id != id, m);
    }
    Filter(ms, (m: Material) => m.id != id)
  }

  /** Deleting an id that no material has leaves the list as it is. */
  lemma DeleteAbsentId(ms: seq<Material>, id: string)
    requires forall k :: 0 <= k < |ms| ==> ms[k].id != id
    ensures Deleted(ms, id) == ms
  {
    FilterKeepsAll(ms, (m: Material) => m.id != id);
  }

  /**
   * Ids are not kept unique. When the last material has id `String(n)` for a list of `n`
   * materials (as after `n` adds) and one other material is deleted, the next add issues `String(n)`
   * again, so two materials share it.
   */
  lemma IdReusedAfterDelete(ms: seq<Material>, id: string, d: Draft)
    requires |ms| >= 1 && ms[|ms| - 1].id == NatToString(|ms|) && id != NatToString(|ms|)
    requires |Deleted(ms, id)| == |ms| - 1
    ensures var after := Added(Deleted(ms, id), d);
      after[|after| - 1].id == NatToString(|ms|) &&
      exists k :: 0 <= k < |after| - 1 && after[k].id == after[|after| - 1].id
  {
    var kept := Deleted(ms, id);
    var last := ms[|ms| - 1];
    assert last in ms;
    assert last in kept;
    var k :| 0 <= k < |kept| && kept[k] == last;
    var after := Added(kept, d);
    assert after[k] == kept[k];
  }

  class LearningPage {
    var materials: seq<Material>
    var newMaterial: Draft

    constructor(initial: seq<Material>)
      ensures materials == initial && newMaterial == EmptyDraft
    {
      materials := initial;
      newMaterial := EmptyDraft;
    }

    /** `handleAddMaterial()`: appends the draft under the next id, keeps every earlier material, and clears the draft. */
    method AddMaterial()
      modifies this
      ensures materials == Added(old(materials), old(newMaterial))
      ensures newMaterial == EmptyDraft
    {
      var newId := NatToString(|materials| + 1);
      materials := materials + [Material(newId, newMaterial.title, newMaterial.content, newMaterial.category)];
      newMaterial := EmptyDraft;
    }

    /** `handleDeleteMaterial(id)`. */
    method DeleteMaterial(id: string)
      modifies this
      ensures materials == Deleted(old(materials), id)
      ensures newMaterial == old(newMaterial)
    {
      materials := Deleted(materials, id);
    }
  }
}

/**
 * The field catalogue: the seven tracked milestone-date names, the static table of
 * date-field/string-field id pairs, the per-name mapping built from the tracker's
 * field definitions (`FieldMapper.get_field_mapping`), its lazy cache, and the
 * per-issue field resolver.
 */
module FieldCatalog {
  import opened Tracker

  /** `TARGET_DATE_FIELDS`. */
  const TargetDateFields: seq<string> := [
    "PRD Due Date", "PRD Review Due Date", "Start date", "Code Complete Target",
    "Release candidate Target", "Preview Est. Date", "GA Estimated Date"
  ]

  /** `FIELD_MAPPINGS`: each date-typed id and its string-typed sibling, in both directions. */
  const FieldPairs: map<FieldId, FieldId> := map[
    "customfield_10015" := "customfield_13039",
    "customfield_13039" := "customfield_10015",
    "customfield_11188" := "customfield_12652",
    "customfield_12652" := "customfield_11188",
    "customfield_11189" := "customfield_12892",
    "customfield_12892" := "customfield_11189",
    "customfield_11186" := "customfield_12893",
    "customfield_12893" := "customfield_11186",
    "customfield_10065" := "customfield_12588",
    "customfield_12588" := "customfield_10065",
    "customfield_10071" := "customfield_12589",
    "customfield_12589" := "customfield_10071",
    "customfield_10064" := "customfield_12967",
    "customfield_12967" := "customfield_10064"
  ]

  /** The pair table is an involution without fixed points, and every partner id is non-empty. */
  lemma FieldPairsInvolution()
    ensures forall k :: k in FieldPairs ==>
      && FieldPairs[k] in FieldPairs
      && FieldPairs[FieldPairs[k]] == k
      && FieldPairs[k] != k
      && FieldPairs[k] != ""
  {
    forall k | k in FieldPairs
      ensures && FieldPairs[k] in FieldPairs
              && FieldPairs[FieldPairs[k]] == k
              && FieldPairs[k] != k
              && FieldPairs[k] != ""
    {
      if k == "customfield_10015" { assert FieldPairs[k] == "customfield_13039"; }
      else if k == "customfield_13039" { assert FieldPairs[k] == "customfield_10015"; }
      else if k == "customfield_11188" { assert FieldPairs[k] == "customfield_12652"; }
      else if k == "customfield_12652" { assert FieldPairs[k] == "customfield_11188"; }
      else if k == "customfield_11189" { assert FieldPairs[k] == "customfield_12892"; }
      else if k == "customfield_12892" { assert FieldPairs[k] == "customfield_11189"; }
      else if k == "customfield_11186" { assert FieldPairs[k] == "customfield_12893"; }
      else if k == "customfield_12893" { assert FieldPairs[k] == "customfield_11186"; }
      else if k == "customfield_10065" { assert FieldPairs[k] == "customfield_12588"; }
      else if k == "customfield_12588" { assert FieldPairs[k] == "customfield_10065"; }
      else if k == "customfield_10071" { assert FieldPairs[k] == "customfield_12589"; }
      else if k == "customfield_12589" { assert FieldPairs[k] == "customfield_10071"; }
      else if k == "customfield_10064" { assert FieldPairs[k] == "customfield_12967"; }
      else if k == "customfield_12967" { assert FieldPairs[k] == "customfield_10064"; }
    }
  }

  // ---------------------------------------------------------------------------
  // The mapping from tracked names to field ids

  /** One candidate id for a tracked name: `{'id': ..., 'type': ...}`. */
  datatype Candidate = Candidate(id: FieldId, typ: string)

  /** One value of the mapping: the primary id and type, and the other candidate ids. */
  datatype MappingEntry = MappingEntry(name: string, id: FieldId, typ: string, alternatives: seq<FieldId>)

  /** `field.get('schema', {}).get('type', 'unknown')`. */
  function SchemaType(f: FieldDef): string
  {
    match f.schemaType
    case Some(t) => t
    case None => "unknown"
  }

  /**
   * `x in s` for a list of names, one name at a time (so that a proof only compares the
   * names it needs to).
   */
  predicate Listed(x: string, s: seq<string>)
  {
    s != [] && (s[0] == x || Listed(x, s[1..]))
  }

  lemma {:induction false} ListedIsMembership(x: string, s: seq<string>)
    ensures Listed(x, s) <==> x in s
  {
    if s != [] {
      ListedIsMembership(x, s[1..]);
      assert s == [s[0]] + s[1..];
    }
  }

  /** A custom field whose name is one of the tracked names. */
  predicate IsTracked(f: FieldDef)
  {
    f.custom && Listed(f.name, TargetDateFields)
  }

  predicate IsDateType(t: string)
  {
    t == "date" || t == "datetime"
  }

  function CandidateOf(f: FieldDef): Candidate
  {
    Candidate(f.id, SchemaType(f))
  }

  /** Entry `k` of the catalogue is a tracked field called `name`. */
  ghost predicate Carries(catalogue: seq<FieldDef>, name: string, k: int)
  {
    0 <= k < |catalogue| && IsTracked(catalogue[k]) && catalogue[k].name == name
  }

  /**
   * The candidates for `name`: the tracked fields called `name`, in catalogue order
   * (the list `field_alternatives[name]` ends up holding).
   */
  function Candidates(catalogue: seq<FieldDef>, name: string): seq<Candidate>
  {
    if catalogue == [] then []
    else
      var f := catalogue[|catalogue| - 1];
      Candidates(catalogue[..|catalogue| - 1], name) + (if IsTracked(f) && f.name == name then [CandidateOf(f)] else [])
  }

  /** Every tracked field called `name` is among its candidates. */
  lemma {:induction false} CandidatesComplete(catalogue: seq<FieldDef>, name: string, k: int)
    requires Carries(catalogue, name, k)
    ensures CandidateOf(catalogue[k]) in Candidates(catalogue, name)
  {
    var prefix := catalogue[..|catalogue| - 1];
    if k < |catalogue| - 1 {
      assert prefix[k] == catalogue[k];
      CandidatesComplete(prefix, name, k);
    }
  }

  /** Every candidate for `name` comes from a tracked field called `name`. */
  lemma {:induction false} CandidatesSound(catalogue: seq<FieldDef>, name: string, c: Candidate)
    requires c in Candidates(catalogue, name)
    ensures exists k :: Carries(catalogue, name, k) && c == CandidateOf(catalogue[k])
  {
    var prefix := catalogue[..|catalogue| - 1];
    if c in Candidates(prefix, name) {
      CandidatesSound(prefix, name, c);
      var k :| Carries(prefix, name, k) && c == CandidateOf(prefix[k]);
      assert prefix[k] == catalogue[k];
      assert Carries(catalogue, name, k);
    } else {
      assert Carries(catalogue, name, |catalogue| - 1);
    }
  }

  /** A name has candidates exactly when some tracked field carries it. */
  lemma CandidatesNonEmpty(catalogue: seq<FieldDef>, name: string)
    ensures Candidates(catalogue, name) != [] <==> exists k :: Carries(catalogue, name, k)
  {
    if k :| Carries(catalogue, name, k) {
      CandidatesComplete(catalogue, name, k);
    }
    var cs := Candidates(catalogue, name);
    if cs != [] {
      CandidatesSound(catalogue, name, cs[0]);
    }
  }

  predicate NoDuplicates<T(==)>(s: seq<T>)
  {
    forall i, j :: 0 <= i < j < |s| ==> s[i] != s[j]
  }

  /** The tracked names in the order they first appear in the catalogue (the keys of `field_alternatives`). */
  function TrackedNames(catalogue: seq<FieldDef>): (names: seq<string>)
    ensures forall n :: n in names <==> Candidates(catalogue, n) != []
  {
    if catalogue == [] then []
    else
      var f := catalogue[|catalogue| - 1];
      var prev := TrackedNames(catalogue[..|catalogue| - 1]);
      if IsTracked(f) && f.name !in prev then prev + [f.name] else prev
  }

  /** No name is listed twice. */
  lemma {:induction false} TrackedNamesDistinct(catalogue: seq<FieldDef>)
    ensures NoDuplicates(TrackedNames(catalogue))
  {
    if catalogue != [] {
      var prefix := catalogue[..|catalogue| - 1];
      var f := catalogue[|catalogue| - 1];
      TrackedNamesDistinct(prefix);
      var prev := TrackedNames(prefix);
      if IsTracked(f) && f.name !in prev {
        var names := prev + [f.name];
        assert TrackedNames(catalogue) == names;
        forall i, j | 0 <= i < j < |names| ensures names[i] != names[j] {
          assert names[i] == prev[i];
          if j < |prev| {
            assert names[j] == prev[j];
            assert prev[i] != prev[j];
          } else {
            assert names[j] == f.name;
            assert prev[i] in prev;
            assert names[i] != f.name;
          }
        }
      }
    }
  }

  /** `[f for f in alternatives if f['type'] in ['date', 'datetime']]`. */
  function DateCandidates(cs: seq<Candidate>): seq<Candidate>
  {
    if cs == [] then []
    else (if IsDateType(cs[0].typ) then [cs[0]] else []) + DateCandidates(cs[1..])
  }

  /**
   * The date-typed candidates are missing exactly when no candidate is date-typed; otherwise
   * the first of them is the first date-typed candidate in order.
   */
  lemma {:induction false} FirstDateCandidate(cs: seq<Candidate>)
    ensures var ds := DateCandidates(cs);
      && (ds == [] <==> forall j :: 0 <= j < |cs| ==> !IsDateType(cs[j].typ))
      && (ds != [] ==> exists k :: (0 <= k < |cs| && ds[0] == cs[k]
            && IsDateType(cs[k].typ) && forall j :: 0 <= j < k ==> !IsDateType(cs[j].typ)))
  {
    if cs != [] && !IsDateType(cs[0].typ) {
      var tail := cs[1..];
      FirstDateCandidate(tail);
      assert forall j :: 1 <= j < |cs| ==> cs[j] == tail[j - 1];
      if DateCandidates(tail) != [] {
        var k :| 0 <= k < |tail| && DateCandidates(tail)[0] == tail[k]
          && IsDateType(tail[k].typ) && forall j :: 0 <= j < k ==> !IsDateType(tail[j].typ);
        assert cs[k + 1] == tail[k];
      }
    }
  }

  /**
   * The primary candidate: the first date/datetime-typed one, or the first candidate when
   * none is date-typed.
   */
  function ChoosePrimary(cs: seq<Candidate>): Candidate
    requires cs != []
  {
    var dateFields := DateCandidates(cs);
    if dateFields != [] then dateFields[0] else cs[0]
  }

  /**
   * The primary is the candidate at some position `k` before which no candidate is date-typed,
   * and it is date-typed unless it is the first; it is date-typed exactly when some candidate is.
   */
  lemma PrimaryChoice(cs: seq<Candidate>)
    requires cs != []
    ensures var p := ChoosePrimary(cs);
      && (exists k :: (0 <= k < |cs| && p == cs[k]
            && (forall j :: 0 <= j < k ==> !IsDateType(cs[j].typ))
            && (IsDateType(p.typ) || k == 0)))
      && ((exists j :: 0 <= j < |cs| && IsDateType(cs[j].typ)) <==> IsDateType(p.typ))
  {
    FirstDateCandidate(cs);
  }

  /** `[f['id'] for f in alternatives if f['id'] != primary['id']]`. */
  function OtherIds(cs: seq<Candidate>, primaryId: FieldId): seq<FieldId>
  {
    if cs == [] then []
    else (if cs[0].id != primaryId then [cs[0].id] else []) + OtherIds(cs[1..], primaryId)
  }

  /** The other ids are exactly the candidate ids that differ from the primary's. */
  lemma {:induction false} OtherIdsMembers(cs: seq<Candidate>, primaryId: FieldId)
    ensures forall id :: id in OtherIds(cs, primaryId) <==> id != primaryId && exists k :: 0 <= k < |cs| && cs[k].id == id
  {
    if cs != [] {
      OtherIdsMembers(cs[1..], primaryId);
      assert forall k :: 1 <= k < |cs| ==> cs[k] == cs[1..][k - 1];
      forall id | id != primaryId && (exists k :: 0 <= k < |cs| && cs[k].id == id)
        ensures id in OtherIds(cs, primaryId)
      {
        var k :| 0 <= k < |cs| && cs[k].id == id;
        if k > 0 {
          assert cs[1..][k - 1].id == id;
        }
      }
    }
  }

  /** The mapping entry `get_field_mapping` builds for `name` from its candidates. */
  function EntryFor(name: string, cs: seq<Candidate>): MappingEntry
    requires cs != []
  {
    var primary := ChoosePrimary(cs);
    MappingEntry(name, primary.id, primary.typ, OtherIds(cs, primary.id))
  }

  function EntriesFor(names: seq<string>, catalogue: seq<FieldDef>): (m: seq<MappingEntry>)
    requires forall n :: n in names ==> Candidates(catalogue, n) != []
    ensures |m| == |names|
    ensures forall i :: 0 <= i < |m| ==> m[i] == EntryFor(names[i], Candidates(catalogue, names[i]))
  {
    if names == [] then []
    else
      var last := names[|names| - 1];
      EntriesFor(names[..|names| - 1], catalogue) + [EntryFor(last, Candidates(catalogue, last))]
  }

  /** What `get_field_mapping` returns for a catalogue, as an insertion-ordered list of entries. */
  function FieldMappingOf(catalogue: seq<FieldDef>): seq<MappingEntry>
  {
    EntriesFor(TrackedNames(catalogue), catalogue)
  }

  /** The names of a mapping, in order. */
  function NamesOf(mapping: seq<MappingEntry>): (names: seq<string>)
    ensures |names| == |mapping|
    ensures forall i :: 0 <= i < |mapping| ==> names[i] == mapping[i].name
  {
    if mapping == [] then [] else [mapping[0].name] + NamesOf(mapping[1..])
  }

  /** The mapping's names are those of `TrackedNames`: distinct, in first-appearance order. */
  lemma MappingNamesDistinct(catalogue: seq<FieldDef>)
    ensures NamesOf(FieldMappingOf(catalogue)) == TrackedNames(catalogue)
    ensures var m := FieldMappingOf(catalogue);
      forall i, j :: 0 <= i < j < |m| ==> m[i].name != m[j].name
  {
    var m := FieldMappingOf(catalogue);
    assert NamesOf(m) == TrackedNames(catalogue);
    TrackedNamesDistinct(catalogue);
  }

  /**
   * A name has an entry exactly when some custom field of the catalogue carries it and it is
   * one of the seven tracked names.
   */
  lemma MappingHasNameIff(catalogue: seq<FieldDef>, name: string)
    ensures name in NamesOf(FieldMappingOf(catalogue)) <==>
      exists k :: 0 <= k < |catalogue| && catalogue[k].custom && catalogue[k].name == name && name in TargetDateFields
  {
    MappingNamesDistinct(catalogue);
    ListedIsMembership(name, TargetDateFields);
    CandidatesNonEmpty(catalogue, name);
    if exists k :: 0 <= k < |catalogue| && catalogue[k].custom && catalogue[k].name == name && name in TargetDateFields {
      var k :| 0 <= k < |catalogue| && catalogue[k].custom && catalogue[k].name == name && name in TargetDateFields;
      assert Carries(catalogue, name, k);
    }
  }

  /** There are never more entries than tracked names. */
  lemma MappingSizeBound(catalogue: seq<FieldDef>)
    ensures |FieldMappingOf(catalogue)| <= |TargetDateFields|
  {
    MappingNamesDistinct(catalogue);
    var names := TrackedNames(catalogue);
    var tracked := set n | n in names;
    var all := set n | n in TargetDateFields;
    forall n | n in tracked ensures n in all {
      CandidatesNonEmpty(catalogue, n);
      var k :| Carries(catalogue, n, k);
      ListedIsMembership(n, TargetDateFields);
    }
    DistinctSeqSize(names);
    SetSizeBound(TargetDateFields);
    SubsetCard(tracked, all);
  }

  lemma DistinctSeqSize<T>(s: seq<T>)
    requires NoDuplicates(s)
    ensures |set x | x in s| == |s|
  {
    if s != [] {
      var rest := s[1..];
      assert NoDuplicates(rest) by {
        forall i, j | 0 <= i < j < |rest| ensures rest[i] != rest[j] {
          assert rest[i] == s[i + 1] && rest[j] == s[j + 1];
        }
      }
      DistinctSeqSize(rest);
      assert (set x | x in s) == {s[0]} + (set x | x in rest);
      assert s[0] !in (set x | x in rest);
    }
  }

  lemma SetSizeBound<T>(s: seq<T>)
    ensures |set x | x in s| <= |s|
  {
    if s != [] {
      SetSizeBound(s[1..]);
      assert (set x | x in s) == {s[0]} + (set x | x in s[1..]);
    }
  }

  lemma SubsetCard<T>(a: set<T>, b: set<T>)
    requires a <= b
    ensures |a| <= |b|
  {
    if a != {} {
      var x :| x in a;
      SubsetCard(a - {x}, b - {x});
    }
  }

  /**
   * The entry for each name: its primary is the first date/datetime-typed candidate in
   * catalogue order, or the first candidate when none is; a date-typed candidate always wins
   * over a string-typed one; the alternatives are exactly the other candidate ids.
   */
  lemma PrimaryPrefersDate(catalogue: seq<FieldDef>, i: nat)
    requires i < |FieldMappingOf(catalogue)|
    ensures var e := FieldMappingOf(catalogue)[i];
      var cs := Candidates(catalogue, e.name);
      && cs != []
      && (exists k :: (0 <= k < |cs| && e.id == cs[k].id && e.typ == cs[k].typ
            && (forall j :: 0 <= j < k ==> !IsDateType(cs[j].typ))
            && (IsDateType(e.typ) || k == 0)))
      && ((exists j :: 0 <= j < |cs| && IsDateType(cs[j].typ)) <==> IsDateType(e.typ))
      && e.id !in e.alternatives
      && (forall id :: id in e.alternatives <==> id != e.id && exists k :: 0 <= k < |cs| && cs[k].id == id)
  {
    var names := TrackedNames(catalogue);
    assert names[i] in names;
    var cs := Candidates(catalogue, names[i]);
    var p := ChoosePrimary(cs);
    PrimaryChoice(cs);
    OtherIdsMembers(cs, p.id);
    var k :| 0 <= k < |cs| && p == cs[k]
      && (forall j :: 0 <= j < k ==> !IsDateType(cs[j].typ))
      && (IsDateType(p.typ) || k == 0);
    assert p.id == cs[k].id && p.typ == cs[k].typ;
  }

  /** One more field of the catalogue extends the candidates and the tracked names by at most that field. */
  lemma TrackStep(catalogue: seq<FieldDef>, k: nat)
    requires k < |catalogue|
    ensures forall n :: (Candidates(catalogue[..k + 1], n) == Candidates(catalogue[..k], n)
      + (if IsTracked(catalogue[k]) && catalogue[k].name == n then [CandidateOf(catalogue[k])] else []))
    ensures TrackedNames(catalogue[..k + 1]) ==
      if IsTracked(catalogue[k]) && catalogue[k].name !in TrackedNames(catalogue[..k])
      then TrackedNames(catalogue[..k]) + [catalogue[k].name]
      else TrackedNames(catalogue[..k])
  {
    assert catalogue[..k + 1][..k] == catalogue[..k];
  }

  /** The grouping loop's invariant after the first `k` fields of the catalogue. */
  ghost predicate GroupedUpTo(allFields: seq<FieldDef>, k: nat, order: seq<string>, alternatives: map<string, seq<Candidate>>)
    requires k <= |allFields|
  {
    && order == TrackedNames(allFields[..k])
    && (forall n :: n in alternatives <==> n in order)
    && (forall n :: n in alternatives ==> alternatives[n] == Candidates(allFields[..k], n))
  }

  /** A field that is not tracked leaves the grouping as it is. */
  lemma GroupSkip(allFields: seq<FieldDef>, k: nat, order: seq<string>, alternatives: map<string, seq<Candidate>>)
    requires k < |allFields| && GroupedUpTo(allFields, k, order, alternatives)
    requires !IsTracked(allFields[k])
    ensures GroupedUpTo(allFields, k + 1, order, alternatives)
  {
    TrackStep(allFields, k);
  }

  /** A tracked field whose name is already a key is appended to that key's candidates. */
  lemma GroupAppend(allFields: seq<FieldDef>, k: nat, order: seq<string>, alternatives: map<string, seq<Candidate>>)
    requires k < |allFields| && GroupedUpTo(allFields, k, order, alternatives)
    requires IsTracked(allFields[k]) && allFields[k].name in alternatives
    ensures var f := allFields[k];
      GroupedUpTo(allFields, k + 1, order, alternatives[f.name := alternatives[f.name] + [CandidateOf(f)]])
  {
    TrackStep(allFields, k);
  }

  /** A tracked field with a new name adds that name as the last key, with the field as its only candidate. */
  lemma GroupInsert(allFields: seq<FieldDef>, k: nat, order: seq<string>, alternatives: map<string, seq<Candidate>>)
    requires k < |allFields| && GroupedUpTo(allFields, k, order, alternatives)
    requires IsTracked(allFields[k]) && allFields[k].name !in alternatives
    ensures var f := allFields[k];
      GroupedUpTo(allFields, k + 1, order + [f.name], alternatives[f.name := [CandidateOf(f)]])
  {
    var f := allFields[k];
    TrackStep(allFields, k);
    assert f.name !in order;
    assert Candidates(allFields[..k], f.name) == [];
    var order', alternatives' := order + [f.name], alternatives[f.name := [CandidateOf(f)]];
    assert order' == TrackedNames(allFields[..k + 1]);
    forall n | n in alternatives'
      ensures alternatives'[n] == Candidates(allFields[..k + 1], n)
    {
      if n != f.name {
        assert alternatives'[n] == alternatives[n];
      }
    }
    assert forall n :: n in alternatives' <==> n in order';
  }

  /**
   * The first half of `get_field_mapping`: the dict `field_alternatives`, built in one pass over
   * the catalogue. `order` holds the dict's keys in insertion order.
   */
  method GroupByName(allFields: seq<FieldDef>) returns (order: seq<string>, alternatives: map<string, seq<Candidate>>)
    ensures order == TrackedNames(allFields)
    ensures forall n :: n in alternatives <==> n in order
    ensures forall n :: n in alternatives ==> alternatives[n] == Candidates(allFields, n)
  {
    order := [];
    alternatives := map[];
    var k := 0;
    while k < |allFields|
      invariant 0 <= k <= |allFields|
      invariant GroupedUpTo(allFields, k, order, alternatives)
    {
      var field := allFields[k];
      if IsTracked(field) {
        var name := field.name;
        if name !in alternatives {
          GroupInsert(allFields, k, order, alternatives);
          alternatives := alternatives[name := []];
          order := order + [name];
        } else {
          GroupAppend(allFields, k, order, alternatives);
        }
        alternatives := alternatives[name := alternatives[name] + [Candidate(field.id, SchemaType(field))]];
      } else {
        GroupSkip(allFields, k, order, alternatives);
      }
      k := k + 1;
    }
    assert allFields[..k] == allFields;
  }

  /**
   * `get_field_mapping`: group the tracked custom fields by name (in the order names first
   * appear), then pick each name's primary and alternatives.
   */
  method BuildFieldMapping(allFields: seq<FieldDef>) returns (fieldMap: seq<MappingEntry>)
    ensures fieldMap == FieldMappingOf(allFields)
  {
    var order, alternatives := GroupByName(allFields);
    fieldMap := [];
    var j := 0;
    while j < |order|
      invariant 0 <= j <= |order|
      invariant fieldMap == EntriesFor(order[..j], allFields)
    {
      var name := order[j];
      assert order[..j + 1][..j] == order[..j];
      var cands := alternatives[name];
      var dateFields := DateCandidates(cands);
      var primary := if dateFields != [] then dateFields[0] else cands[0];
      fieldMap := fieldMap + [MappingEntry(name, primary.id, primary.typ, OtherIds(cands, primary.id))];
      j := j + 1;
    }
    assert order[..j] == order;
  }

  /**
   * What `get_field_mapping` gives when the cache holds `cache` and `jira.fields()` would answer
   * `remote`: the mapping of the cached catalogue, else of the fetched one, else the fetch's error.
   */
  function CachedMapping(cache: Option<seq<FieldDef>>, remote: Outcome<seq<FieldDef>>): Outcome<seq<MappingEntry>>
  {
    if cache.Some? then Returned(FieldMappingOf(cache.value))
    else if remote.Raised? then Raised(remote.message)
    else Returned(FieldMappingOf(remote.value))
  }

  /** `FieldMapper`: the field catalogue is fetched once, on first use, and cached. */
  class FieldMapper {
    /** `_field_cache`. */
    var fieldCache: Option<seq<FieldDef>>

    constructor ()
      ensures fieldCache == None
    {
      fieldCache := None;
    }

    /**
     * The `all_fields` property; `remote` is what `jira.fields()` would answer now. Once a
     * catalogue is cached it is returned as it is, and the tracker is not asked again.
     */
    method AllFields(remote: Outcome<seq<FieldDef>>) returns (r: Outcome<seq<FieldDef>>)
      modifies this
      ensures old(fieldCache).Some? ==> r == Returned(old(fieldCache).value) && fieldCache == old(fieldCache)
      ensures old(fieldCache).None? ==> r == remote
      ensures old(fieldCache).None? ==> fieldCache == if remote.Returned? then Some(remote.value) else None
    {
      if fieldCache.None? {
        if remote.Raised? {
          return remote;
        }
        fieldCache := Some(remote.value);
      }
      r := Returned(fieldCache.value);
    }

    /** `get_field_mapping`, on the cached catalogue. */
    method GetFieldMapping(remote: Outcome<seq<FieldDef>>) returns (r: Outcome<seq<MappingEntry>>)
      modifies this
      ensures old(fieldCache).Some? ==> r == Returned(FieldMappingOf(old(fieldCache).value)) && fieldCache == old(fieldCache)
      ensures old(fieldCache).None? && remote.Raised? ==> r == Raised(remote.message) && fieldCache == None
      ensures old(fieldCache).None? && remote.Returned? ==> r == Returned(FieldMappingOf(remote.value)) && fieldCache == Some(remote.value)
      ensures r == CachedMapping(old(fieldCache), remote)
    {
      var fields := AllFields(remote);
      if fields.Raised? {
        return Raised(fields.message);
      }
      var fieldMap := BuildFieldMapping(fields.value);
      r := Returned(fieldMap);
    }
  }

  // ---------------------------------------------------------------------------
  // Resolving a field id on one issue

  /**
   * `resolve_field_for_issue`. The probe `getattr(issue.fields, id, None)` is modelled by
   * `issue.probeRaises`: the id itself when its probe does not raise; otherwise its table
   * partner when the partner's probe does not raise; otherwise nothing.
   */
  function ResolveFieldForIssue(fieldId: FieldId, issue: Issue): (r: Option<FieldId>)
    ensures fieldId !in issue.probeRaises ==> r == Some(fieldId)
    ensures r.Some? ==> r.value !in issue.probeRaises
    ensures r.Some? ==> r.value == fieldId || (fieldId in FieldPairs && r.value == FieldPairs[fieldId])
    ensures r.None? <==> fieldId in issue.probeRaises && (fieldId !in FieldPairs || FieldPairs[fieldId] in issue.probeRaises)
  {
    FieldPairsInvolution();
    if fieldId !in issue.probeRaises then
      Some(fieldId)
    else if fieldId in FieldPairs && FieldPairs[fieldId] != "" && FieldPairs[fieldId] !in issue.probeRaises then
      Some(FieldPairs[fieldId])
    else
      None
  }

  /**
   * The fallback is total and symmetric: for every pair (a, b) of the table, an issue on which
   * probing a raises but probing b does not resolves a to b, and the other way round.
   */
  lemma ResolverFallsBackToPartner(a: FieldId, issue: Issue)
    requires a in FieldPairs
    requires a in issue.probeRaises && FieldPairs[a] !in issue.probeRaises
    ensures ResolveFieldForIssue(a, issue) == Some(FieldPairs[a])
    ensures FieldPairs[a] in FieldPairs && FieldPairs[FieldPairs[a]] == a
  {
    FieldPairsInvolution();
  }

  /**
   * An id that the issue does not carry at all is still returned unchanged: the probe passes a
   * default to getattr, so a missing attribute reads as None instead of raising.
   */
  lemma AbsentFieldResolvesToItself(fieldId: FieldId, issue: Issue)
    requires fieldId !in issue.fields && fieldId !in issue.probeRaises
    ensures ResolveFieldForIssue(fieldId, issue) == Some(fieldId)
  {
  }

  /**
   * When probing raises for every id alike (the only way getattr with a default raises
   * AttributeError here is that `issue.fields` itself cannot be read), the table is never
   * used: the resolver gives the id itself or nothing.
   */
  lemma UniformProbeNeverUsesPartner(fieldId: FieldId, issue: Issue)
    requires fieldId in FieldPairs ==> (fieldId in issue.probeRaises <==> FieldPairs[fieldId] in issue.probeRaises)
    ensures ResolveFieldForIssue(fieldId, issue) in {Some(fieldId), None}
  {
  }
}

/**
 * Syncing the milestone dates of one source issue onto one target issue
 * (`DateFieldCloner._clone_fields_with_status` and the steps it runs): fetch both issues,
 * collect the source's populated dates, stop on a dry run or a declined confirmation,
 * otherwise resolve a target field for each date, prepare the values and write them.
 */
module SyncEngine {
  import opened Tracker
  import PyText
  import Gateway
  import FieldCatalog
  import DateValues

  /** The status string the pair sync reports: 'success', 'skipped' or 'failed'. */
  datatype Status = Success | Skipped | Failed

  /** The pair `(success, status)` `_clone_fields_with_status` returns. */
  datatype SyncResult = SyncResult(success: bool, status: Status)

  // ---------------------------------------------------------------------------
  // Confirmation

  /** The answer to the "Proceed?" prompt is accepted when, stripped and lower-cased, it is `yes` or `y`. */
  predicate ConfirmationAccepted(response: string)
  {
    var answer := PyText.Lower(PyText.Strip(response));
    answer == "yes" || answer == "y"
  }

  /**
   * Surrounding whitespace and letter case do not matter: a padded word is accepted exactly
   * when the word, lower-cased, is `yes` or `y`.
   */
  lemma ConfirmationIgnoresPaddingAndCase(pad1: string, word: string, pad2: string)
    requires PyText.AllSpace(pad1) && PyText.AllSpace(pad2)
    requires word != [] && !PyText.IsSpace(word[0]) && !PyText.IsSpace(word[|word| - 1])
    ensures ConfirmationAccepted(pad1 + word + pad2) <==> (PyText.Lower(word) == "yes" || PyText.Lower(word) == "y")
  {
    PyText.StripPadded(pad1, word, pad2);
  }

  /** An empty or all-whitespace answer (pressing Enter) declines. */
  lemma BlankResponseDeclines(response: string)
    requires PyText.AllSpace(response)
    ensures !ConfirmationAccepted(response)
  {
  }

  /** An accepted answer is, once stripped, one or three characters long: `y` or `yes` in some letter case. */
  lemma AcceptedAnswerShape(response: string)
    requires ConfirmationAccepted(response)
    ensures var core := PyText.Strip(response);
      (|core| == 1 && PyText.LowerChar(core[0]) == 'y')
      || (|core| == 3 && PyText.LowerChar(core[0]) == 'y' && PyText.LowerChar(core[1]) == 'e'
          && PyText.LowerChar(core[2]) == 's')
  {
    var core := PyText.Strip(response);
    var answer := PyText.Lower(core);
    if answer == "y" {
      assert answer[0] == 'y';
    } else {
      assert answer[0] == 'y' && answer[1] == 'e' && answer[2] == 's';
    }
  }

  // ---------------------------------------------------------------------------
  // Resolving the target fields

  /** One value of the dict `_resolve_target_fields` returns: the populated field plus its `target_id`. */
  datatype CompatibleField = CompatibleField(field: DateValues.PopulatedField, targetId: FieldId)

  /** `field_mapping[name]`: the entry filed under `name` (the first one, though names are distinct). */
  function LookupEntry(mapping: seq<FieldCatalog.MappingEntry>, name: string): (r: Option<FieldCatalog.MappingEntry>)
    ensures r.Some? ==> r.value in mapping && r.value.name == name
    ensures r.None? <==> forall i :: 0 <= i < |mapping| ==> mapping[i].name != name
  {
    if mapping == [] then None
    else if mapping[0].name == name then Some(mapping[0])
    else
      var rest := LookupEntry(mapping[1..], name);
      assert forall i :: 1 <= i < |mapping| ==> mapping[i] == mapping[1..][i - 1];
      rest
  }

  /**
   * The loop over the alternatives that breaks at the first truthy resolution: that resolved
   * id, or None when no alternative resolves to a truthy id.
   */
  function FirstResolved(ids: seq<FieldId>, issue: Issue): Option<FieldId>
  {
    if ids == [] then None
    else
      var id := FieldCatalog.ResolveFieldForIssue(ids[0], issue);
      if Truthy(id) then id else FirstResolved(ids[1..], issue)
  }

  /** The alternative loop's result is the resolution of the first alternative that resolves to a truthy id. */
  lemma {:induction false} FirstResolvedIsFirst(ids: seq<FieldId>, issue: Issue)
    ensures var r := FirstResolved(ids, issue);
      && (r.None? <==> forall k :: 0 <= k < |ids| ==> !Truthy(FieldCatalog.ResolveFieldForIssue(ids[k], issue)))
      && (r.Some? ==> exists j :: (0 <= j < |ids| && r == FieldCatalog.ResolveFieldForIssue(ids[j], issue) && Truthy(r)
            && forall k :: 0 <= k < j ==> !Truthy(FieldCatalog.ResolveFieldForIssue(ids[k], issue))))
  {
    if ids != [] {
      FirstResolvedIsFirst(ids[1..], issue);
      assert forall k :: 1 <= k < |ids| ==> ids[k] == ids[1..][k - 1];
      var r := FirstResolved(ids, issue);
      if !Truthy(FieldCatalog.ResolveFieldForIssue(ids[0], issue)) && r.Some? {
        var j :| 0 <= j < |ids[1..]| && r == FieldCatalog.ResolveFieldForIssue(ids[1..][j], issue) && Truthy(r)
          && forall k :: 0 <= k < j ==> !Truthy(FieldCatalog.ResolveFieldForIssue(ids[1..][k], issue));
        assert forall k :: 0 <= k < j + 1 ==> !Truthy(FieldCatalog.ResolveFieldForIssue(ids[k], issue));
      }
    }
  }

  /**
   * The target id `_resolve_target_fields` settles on for one mapping entry: for a JPD target
   * with alternatives, the first alternative that resolves; failing that, the resolution of the
   * primary id when it is truthy; otherwise none, and the field is dropped.
   */
  function TargetIdFor(entry: FieldCatalog.MappingEntry, issue: Issue, isJpd: bool): (r: Option<FieldId>)
    ensures r.Some? ==> r.value != "" && r.value !in issue.probeRaises
  {
    var alternative := if isJpd && entry.alternatives != [] then FirstResolved(entry.alternatives, issue) else None;
    if alternative.Some? then
      FirstResolvedIsFirst(entry.alternatives, issue);
      alternative
    else
      var primary := FieldCatalog.ResolveFieldForIssue(entry.id, issue);
      if Truthy(primary) then primary else None
  }

  /** For a JPD target, an alternative that resolves wins over the primary id. */
  lemma JpdPrefersAlternatives(entry: FieldCatalog.MappingEntry, issue: Issue, j: int)
    requires 0 <= j < |entry.alternatives|
    requires Truthy(FieldCatalog.ResolveFieldForIssue(entry.alternatives[j], issue))
    requires forall k :: 0 <= k < j ==> !Truthy(FieldCatalog.ResolveFieldForIssue(entry.alternatives[k], issue))
    ensures TargetIdFor(entry, issue, true) == FieldCatalog.ResolveFieldForIssue(entry.alternatives[j], issue)
  {
    var ids := entry.alternatives;
    FirstResolvedIsFirst(ids, issue);
    var r := FirstResolved(ids, issue);
    var j' :| 0 <= j' < |ids| && r == FieldCatalog.ResolveFieldForIssue(ids[j'], issue) && Truthy(r)
      && forall k :: 0 <= k < j' ==> !Truthy(FieldCatalog.ResolveFieldForIssue(ids[k], issue));
    if j' != j {
      assert false;
    }
  }

  /** A non-JPD target only ever uses the primary id (or its table partner, through the resolver). */
  lemma NonJpdUsesPrimary(entry: FieldCatalog.MappingEntry, issue: Issue)
    ensures var p := FieldCatalog.ResolveFieldForIssue(entry.id, issue);
      TargetIdFor(entry, issue, false) == if Truthy(p) then p else None
  {
  }

  /** The target id for one populated field: none when its name has no mapping entry. */
  function TargetOf(field: DateValues.PopulatedField, mapping: seq<FieldCatalog.MappingEntry>,
                    issue: Issue, isJpd: bool): (r: Option<FieldId>)
    ensures r.Some? ==> exists e :: e in mapping && e.name == field.name
    ensures r.Some? ==> r.value != "" && r.value !in issue.probeRaises
  {
    var entry := LookupEntry(mapping, field.name);
    if entry.None? then None else TargetIdFor(entry.value, issue, isJpd)
  }

  /**
   * What `_resolve_target_fields` returns, in the order of the populated fields: each field
   * whose name has a mapping entry and a target id, paired with that id.
   */
  function CompatibleOf(populated: seq<DateValues.PopulatedField>, mapping: seq<FieldCatalog.MappingEntry>,
                        issue: Issue, isJpd: bool): seq<CompatibleField>
  {
    if populated == [] then []
    else
      var rest := CompatibleOf(populated[1..], mapping, issue, isJpd);
      var target := TargetOf(populated[0], mapping, issue, isJpd);
      if target.None? then rest else [CompatibleField(populated[0], target.value)] + rest
  }

  /** Every populated field that has a target id is kept, paired with that id. */
  lemma {:induction false} CompatibleComplete(populated: seq<DateValues.PopulatedField>, mapping: seq<FieldCatalog.MappingEntry>,
                                             issue: Issue, isJpd: bool)
    ensures forall i :: 0 <= i < |populated| && TargetOf(populated[i], mapping, issue, isJpd).Some? ==>
      CompatibleField(populated[i], TargetOf(populated[i], mapping, issue, isJpd).value) in CompatibleOf(populated, mapping, issue, isJpd)
  {
    if populated != [] {
      var tail := populated[1..];
      CompatibleComplete(tail, mapping, issue, isJpd);
      var compatible := CompatibleOf(populated, mapping, issue, isJpd);
      assert forall c :: c in CompatibleOf(tail, mapping, issue, isJpd) ==> c in compatible;
      forall i | 0 < i < |populated|
        ensures populated[i] == tail[i - 1]
      {
      }
    }
  }

  /** Every kept field is a populated field, unchanged, paired with its target id. */
  lemma {:induction false} CompatibleSound(populated: seq<DateValues.PopulatedField>, mapping: seq<FieldCatalog.MappingEntry>,
                                          issue: Issue, isJpd: bool)
    ensures forall c :: c in CompatibleOf(populated, mapping, issue, isJpd) ==>
      exists i :: 0 <= i < |populated| && c.field == populated[i] && TargetOf(populated[i], mapping, issue, isJpd) == Some(c.targetId)
  {
    if populated != [] {
      var tail := populated[1..];
      CompatibleSound(tail, mapping, issue, isJpd);
      var rest := CompatibleOf(tail, mapping, issue, isJpd);
      forall c | c in CompatibleOf(populated, mapping, issue, isJpd)
        ensures exists i :: 0 <= i < |populated| && c.field == populated[i] && TargetOf(populated[i], mapping, issue, isJpd) == Some(c.targetId)
      {
        if c in rest {
          var j :| 0 <= j < |tail| && c.field == tail[j] && TargetOf(tail[j], mapping, issue, isJpd) == Some(c.targetId);
          assert tail[j] == populated[j + 1];
        }
      }
    }
  }

  /** Names without a mapping entry are dropped: every kept field's name is in the mapping. */
  lemma CompatibleNamesAreMapped(populated: seq<DateValues.PopulatedField>, mapping: seq<FieldCatalog.MappingEntry>,
                                 issue: Issue, isJpd: bool, c: CompatibleField)
    requires c in CompatibleOf(populated, mapping, issue, isJpd)
    ensures exists e :: e in mapping && e.name == c.field.name
    ensures c.targetId != "" && c.targetId !in issue.probeRaises
  {
    CompatibleSound(populated, mapping, issue, isJpd);
  }

  /**
   * The alternative loop of `_resolve_target_fields` for one entry: it resolves the alternatives
   * in order and stops at the first truthy id.
   */
  method ResolveAlternatives(alternatives: seq<FieldId>, targetIssue: Issue) returns (resolvedId: Option<FieldId>)
    ensures Truthy(resolvedId) ==> resolvedId == FirstResolved(alternatives, targetIssue)
    ensures !Truthy(resolvedId) ==> FirstResolved(alternatives, targetIssue).None?
  {
    resolvedId := None;
    var j := 0;
    while j < |alternatives|
      invariant 0 <= j <= |alternatives|
      invariant FirstResolved(alternatives, targetIssue) == FirstResolved(alternatives[j..], targetIssue)
      invariant !Truthy(resolvedId)
    {
      resolvedId := FieldCatalog.ResolveFieldForIssue(alternatives[j], targetIssue);
      if Truthy(resolvedId) {
        return;
      }
      assert alternatives[j..][1..] == alternatives[j + 1..];
      j := j + 1;
    }
  }

  /** The resolution of one mapping entry: the alternatives first on a JPD target, then the primary. */
  method ResolveTarget(targetInfo: FieldCatalog.MappingEntry, targetIssue: Issue, isJpd: bool) returns (resolvedId: Option<FieldId>)
    ensures Truthy(resolvedId) ==> resolvedId == TargetIdFor(targetInfo, targetIssue, isJpd)
    ensures !Truthy(resolvedId) ==> TargetIdFor(targetInfo, targetIssue, isJpd).None?
  {
    resolvedId := None;
    if isJpd && targetInfo.alternatives != [] {
      resolvedId := ResolveAlternatives(targetInfo.alternatives, targetIssue);
    }
    if !Truthy(resolvedId) {
      resolvedId := FieldCatalog.ResolveFieldForIssue(targetInfo.id, targetIssue);
    }
  }

  /** `_resolve_target_fields`: one pass over the populated fields, keeping those with a target id. */
  method ResolveTargetFields(populated: seq<DateValues.PopulatedField>, fieldMapping: seq<FieldCatalog.MappingEntry>,
                             targetIssue: Issue, isJpd: bool)
    returns (compatible: seq<CompatibleField>)
    ensures compatible == CompatibleOf(populated, fieldMapping, targetIssue, isJpd)
  {
    compatible := [];
    var i := 0;
    while i < |populated|
      invariant 0 <= i <= |populated|
      invariant CompatibleOf(populated, fieldMapping, targetIssue, isJpd)
        == compatible + CompatibleOf(populated[i..], fieldMapping, targetIssue, isJpd)
    {
      var fieldData := populated[i];
      assert populated[i..][1..] == populated[i + 1..];
      var entry := LookupEntry(fieldMapping, fieldData.name);
      if entry.Some? {
        var resolvedId := ResolveTarget(entry.value, targetIssue, isJpd);
        if Truthy(resolvedId) {
          compatible := compatible + [CompatibleField(fieldData, resolvedId.value)];
        }
      }
      i := i + 1;
    }
    assert populated[i..] == [];
  }

  // ---------------------------------------------------------------------------
  // Preparing and writing the updates

  /** One value of the dict `_prepare_updates` returns: the field name, the target id and the value to write. */
  datatype Update = Update(name: string, fieldId: FieldId, value: string)

  /** The update for one compatible field: a JPD target gets the JSON interval, any other target the raw value. */
  function UpdateFor(c: CompatibleField, isJpd: bool): (u: Update)
    ensures u.name == c.field.name && u.fieldId == c.targetId
    ensures isJpd ==> var d := DateValues.FormatDateString(c.field.value);
      DateValues.ParseJpdInterval(u.value) == Some((d, d))
    ensures !isJpd ==> u.value == c.field.value
  {
    Update(c.field.name, c.targetId, if isJpd then DateValues.FormatForJpd(c.field.value) else c.field.value)
  }

  /** `updates` holds, position by position, the update for each compatible field. */
  predicate PreparedFrom(updates: seq<Update>, compatible: seq<CompatibleField>, isJpd: bool)
  {
    |updates| == |compatible| && forall i :: 0 <= i < |compatible| ==> updates[i] == UpdateFor(compatible[i], isJpd)
  }

  /** The updates prepared for `compatible`, as a value. */
  function UpdatesFor(compatible: seq<CompatibleField>, isJpd: bool): (updates: seq<Update>)
    ensures PreparedFrom(updates, compatible, isJpd)
  {
    seq(|compatible|, i requires 0 <= i < |compatible| => UpdateFor(compatible[i], isJpd))
  }

  /** `_prepare_updates`: one update per compatible field, in order. */
  method PrepareUpdates(compatible: seq<CompatibleField>, isJpd: bool) returns (updates: seq<Update>)
    ensures PreparedFrom(updates, compatible, isJpd)
  {
    updates := [];
    for i := 0 to |compatible|
      invariant |updates| == i
      invariant forall k :: 0 <= k < i ==> updates[k] == UpdateFor(compatible[k], isJpd)
    {
      updates := updates + [UpdateFor(compatible[i], isJpd)];
    }
  }

  /** Some update in `updates` is accepted by `update_issue_field` on the issue `key`. */
  predicate SomeAccepted(key: IssueKey, updates: seq<Update>,
                         issueApi: (IssueKey, nat) -> Outcome<Option<Issue>>,
                         updateApi: (IssueKey, FieldId, string, nat) -> Outcome<()>)
  {
    exists i :: 0 <= i < |updates| && Gateway.UpdateAccepted(key, updates[i].fieldId, updates[i].value, issueApi, updateApi)
  }

  /** Appending one update: some update is accepted iff one was before or the new one is. */
  lemma SomeAcceptedSnoc(key: IssueKey, updates: seq<Update>, u: Update,
                         issueApi: (IssueKey, nat) -> Outcome<Option<Issue>>,
                         updateApi: (IssueKey, FieldId, string, nat) -> Outcome<()>)
    ensures SomeAccepted(key, updates + [u], issueApi, updateApi) <==>
      SomeAccepted(key, updates, issueApi, updateApi) || Gateway.UpdateAccepted(key, u.fieldId, u.value, issueApi, updateApi)
  {
    var s := updates + [u];
    assert forall k :: 0 <= k < |updates| ==> s[k] == updates[k];
    assert s[|updates|] == u;
  }

  /** The update requests sent to the tracker for `updates` on the issue `key`, in order. */
  function WriteLog(key: IssueKey, updates: seq<Update>): seq<Gateway.FieldWrite>
  {
    seq(|updates|, i requires 0 <= i < |updates| => Gateway.FieldWrite(key, updates[i].fieldId, updates[i].value))
  }

  /**
   * `_execute_sync`: resolve, prepare, then write every update in order, counting the accepted
   * ones. `sent` lists the `update_issue_field` calls made, and the client's write log grows by
   * exactly their update requests (each is sent once the re-fetch of the target gives the
   * issue). The sync succeeds when at least one write was accepted, so partial success counts
   * as success; with no compatible field nothing is written and it fails.
   */
  method ExecuteSync(client: Gateway.JiraClient, targetIssue: Issue, populated: seq<DateValues.PopulatedField>,
                     fieldMapping: seq<FieldCatalog.MappingEntry>, isJpd: bool,
                     issueApi: (IssueKey, nat) -> Outcome<Option<Issue>>,
                     updateApi: (IssueKey, FieldId, string, nat) -> Outcome<()>)
    returns (success: bool, sent: seq<Update>)
    requires client.Valid()
    modifies client
    ensures client.Valid()
    ensures PreparedFrom(sent, CompatibleOf(populated, fieldMapping, targetIssue, isJpd), isJpd)
    ensures sent == UpdatesFor(CompatibleOf(populated, fieldMapping, targetIssue, isJpd), isJpd)
    ensures success <==> SomeAccepted(targetIssue.key, sent, issueApi, updateApi)
    ensures client.writes == old(client.writes) +
      (if Gateway.IssueFound(issueApi, targetIssue.key) then WriteLog(targetIssue.key, sent) else [])
    ensures client.now >= old(client.now)
  {
    var compatibleFields := ResolveTargetFields(populated, fieldMapping, targetIssue, isJpd);
    if compatibleFields == [] {
      return false, [];
    }
    var updateData := PrepareUpdates(compatibleFields, isJpd);
    var successCount := 0;
    for i := 0 to |updateData|
      invariant client.Valid()
      invariant successCount > 0 <==> SomeAccepted(targetIssue.key, updateData[..i], issueApi, updateApi)
      invariant client.writes == old(client.writes) +
        (if Gateway.IssueFound(issueApi, targetIssue.key) then WriteLog(targetIssue.key, updateData[..i]) else [])
      invariant client.now >= old(client.now)
    {
      var u := updateData[i];
      var ok, _ := client.UpdateIssueField(targetIssue.key, u.fieldId, u.value, issueApi, updateApi);
      assert updateData[..i + 1] == updateData[..i] + [u];
      assert WriteLog(targetIssue.key, updateData[..i + 1])
        == WriteLog(targetIssue.key, updateData[..i]) + [Gateway.FieldWrite(targetIssue.key, u.fieldId, u.value)];
      SomeAcceptedSnoc(targetIssue.key, updateData[..i], u, issueApi, updateApi);
      if ok {
        successCount := successCount + 1;
      }
    }
    assert updateData[..|updateData|] == updateData;
    assert updateData == UpdatesFor(compatibleFields, isJpd);
    sent := updateData;
    success := successCount > 0;
  }

  // ---------------------------------------------------------------------------
  // The pair sync

  /** What the pair sync carries to its dry-run / confirmation decision. */
  datatype Gathered = Gathered(target: Issue, mapping: seq<FieldCatalog.MappingEntry>, populated: seq<DateValues.PopulatedField>)

  /**
   * The steps of `_clone_fields_with_status` before its decision, given what fetching the two
   * issues and the field mapping gives: an exception from any of them, from the extraction or
   * from reading the source's issue type propagates; a missing issue or a source without
   * populated dates is skipped (None); otherwise what the rest of the sync needs.
   */
  function Gather(source: Outcome<Option<Issue>>, target: Outcome<Option<Issue>>,
                  mapping: Outcome<seq<FieldCatalog.MappingEntry>>): Outcome<Option<Gathered>>
  {
    if source.Raised? then Raised(source.message)
    else if target.Raised? then Raised(target.message)
    else if source.value.None? || target.value.None? then Returned(None)
    else if mapping.Raised? then Raised(mapping.message)
    else
      var populated := DateValues.PopulatedOf(source.value.value, mapping.value);
      if populated.Raised? then Raised(populated.message)
      else if populated.value == [] then Returned(None)
      else if source.value.value.issueType.None? then Raised(AttributeErrorMessage)
      else Returned(Some(Gathered(target.value.value, mapping.value, populated.value)))
  }

  /**
   * A sync that gets past its checks carries the target issue, the mapping and a nonempty set of
   * populated dates, each from a mapping entry whose primary value on the source is truthy.
   */
  lemma GatherReady(source: Outcome<Option<Issue>>, target: Outcome<Option<Issue>>,
                    mapping: Outcome<seq<FieldCatalog.MappingEntry>>)
    requires Gather(source, target, mapping).Returned? && Gather(source, target, mapping).value.Some?
    ensures var g := Gather(source, target, mapping).value.value;
      && source == Returned(Some(source.value.value)) && target == Returned(Some(g.target))
      && mapping == Returned(g.mapping) && g.populated != []
      && forall p :: p in g.populated ==> exists i :: (0 <= i < |g.mapping| && p.name == g.mapping[i].name
           && p.sourceId == g.mapping[i].id && Truthy(ReadField(source.value.value, g.mapping[i].id)))
  {
    DateValues.PopulatedExactly(source.value.value, mapping.value);
  }

  /**
   * A sync is skipped before its decision exactly when nothing raises and either issue is
   * missing or the source has no populated date.
   */
  lemma GatherSkipsIff(source: Outcome<Option<Issue>>, target: Outcome<Option<Issue>>,
                       mapping: Outcome<seq<FieldCatalog.MappingEntry>>)
    ensures Gather(source, target, mapping) == Returned(None) <==>
      && source.Returned? && target.Returned?
      && (|| source.value.None? || target.value.None?
          || (mapping.Returned? && DateValues.PopulatedOf(source.value.value, mapping.value) == Returned([])))
  {
  }

  /** The pair sync gets past its checks, is no dry run, and the user confirmed or `--force` was given. */
  predicate GoesAhead(g: Outcome<Option<Gathered>>, dryRun: bool, force: bool, response: string)
  {
    g.Returned? && g.value.Some? && !dryRun && (force || ConfirmationAccepted(response))
  }

  /** The updates the pair sync writes once it goes ahead: one per compatible populated date. */
  function WritesFor(g: Gathered): seq<Update>
  {
    var isJpd := DateValues.IsJpdIssue(g.target);
    UpdatesFor(CompatibleOf(g.populated, g.mapping, g.target, isJpd), isJpd)
  }

  /**
   * What `_clone_fields_with_status` returns, given what its checks gathered: an exception
   * propagates; a skipped pair and a declined confirmation give (False, 'skipped'); a dry run
   * gives (True, 'success') without writing; otherwise the writes are made and the pair gives
   * (True, 'success') when at least one is accepted and (False, 'failed') when none is.
   */
  function PairOutcome(g: Outcome<Option<Gathered>>, dryRun: bool, force: bool, response: string,
                       issueApi: (IssueKey, nat) -> Outcome<Option<Issue>>,
                       updateApi: (IssueKey, FieldId, string, nat) -> Outcome<()>): Outcome<SyncResult>
  {
    if g.Raised? then Raised(g.message)
    else if g.value.None? then Returned(SyncResult(false, Skipped))
    else if dryRun then Returned(SyncResult(true, Success))
    else if !force && !ConfirmationAccepted(response) then Returned(SyncResult(false, Skipped))
    else
      var s := SomeAccepted(g.value.value.target.key, WritesFor(g.value.value), issueApi, updateApi);
      Returned(SyncResult(s, if s then Success else Failed))
  }

  /**
   * The three statuses of the pair sync: success exactly when the flag is True; 'failed' exactly
   * when the sync went ahead and no update was accepted; 'skipped' exactly when an issue was
   * missing, nothing was populated, or the confirmation was declined.
   */
  lemma PairOutcomeStatus(g: Outcome<Option<Gathered>>, dryRun: bool, force: bool, response: string,
                          issueApi: (IssueKey, nat) -> Outcome<Option<Issue>>,
                          updateApi: (IssueKey, FieldId, string, nat) -> Outcome<()>)
    ensures var r := PairOutcome(g, dryRun, force, response, issueApi, updateApi);
      && (r.Raised? <==> g.Raised?)
      && (r.Returned? ==> (r.value.success <==> r.value.status == Success))
      && (r.Returned? && r.value.status == Failed <==>
            GoesAhead(g, dryRun, force, response)
            && !SomeAccepted(g.value.value.target.key, WritesFor(g.value.value), issueApi, updateApi))
      && (r.Returned? && r.value.status == Skipped <==>
            g == Returned(None) || (g.Returned? && g.value.Some? && !dryRun && !force && !ConfirmationAccepted(response)))
  {
  }

  /**
   * The update requests the pair sync sends: once it goes ahead, one per prepared update on the
   * target, each sent once `update_issue_field` has fetched the target again; none otherwise.
   */
  function PairWrites(g: Outcome<Option<Gathered>>, dryRun: bool, force: bool, response: string,
                      issueApi: (IssueKey, nat) -> Outcome<Option<Issue>>): seq<Gateway.FieldWrite>
  {
    if GoesAhead(g, dryRun, force, response) && Gateway.IssueFound(issueApi, g.value.value.target.key)
    then WriteLog(g.value.value.target.key, WritesFor(g.value.value))
    else []
  }

  /**
   * The pair sync writes something only when it goes ahead, so a dry run, a skipped pair and a
   * declined confirmation write nothing; when it goes ahead and the target is found again, every
   * prepared update is sent, in order, to the target.
   */
  lemma PairWritesOnlyWhenGoingAhead(g: Outcome<Option<Gathered>>, dryRun: bool, force: bool, response: string,
                                     issueApi: (IssueKey, nat) -> Outcome<Option<Issue>>)
    ensures PairWrites(g, dryRun, force, response, issueApi) != [] ==> GoesAhead(g, dryRun, force, response)
    ensures dryRun ==> PairWrites(g, dryRun, force, response, issueApi) == []
    ensures GoesAhead(g, dryRun, force, response) && Gateway.IssueFound(issueApi, g.value.value.target.key) ==>
      var w := PairWrites(g, dryRun, force, response, issueApi);
      var u := WritesFor(g.value.value);
      && |w| == |u|
      && forall i :: 0 <= i < |u| ==> w[i].key == g.value.value.target.key && w[i].fieldId == u[i].fieldId && w[i].value == u[i].value
  {
  }

  /** A sync that goes ahead with no compatible field writes nothing and fails. */
  lemma NothingCompatibleFails(g: Outcome<Option<Gathered>>, force: bool, response: string,
                               issueApi: (IssueKey, nat) -> Outcome<Option<Issue>>,
                               updateApi: (IssueKey, FieldId, string, nat) -> Outcome<()>)
    requires GoesAhead(g, false, force, response)
    requires var isJpd := DateValues.IsJpdIssue(g.value.value.target);
      CompatibleOf(g.value.value.populated, g.value.value.mapping, g.value.value.target, isJpd) == []
    ensures WritesFor(g.value.value) == []
    ensures PairOutcome(g, false, force, response, issueApi, updateApi) == Returned(SyncResult(false, Failed))
  {
  }

  /**
   * `_clone_fields_with_status`. `issueApi`, `updateApi` and `catalogue` stand for the tracker,
   * `response` for what the user types at the prompt; `sent` lists the field writes made, and
   * the client's write log grows by exactly the pair's update requests, so a dry run writes
   * nothing. The field mapping it sees is the same before and after, since the cache only ever
   * holds the catalogue.
   */
  method CloneFieldsWithStatus(client: Gateway.JiraClient, mapper: FieldCatalog.FieldMapper,
                               sourceKey: IssueKey, targetKey: IssueKey, dryRun: bool, force: bool, response: string,
                               issueApi: (IssueKey, nat) -> Outcome<Option<Issue>>,
                               updateApi: (IssueKey, FieldId, string, nat) -> Outcome<()>,
                               catalogue: Outcome<seq<FieldDef>>)
    returns (r: Outcome<SyncResult>, sent: seq<Update>)
    requires client.Valid()
    modifies client, mapper
    ensures client.Valid()
    ensures mapper.fieldCache == old(mapper.fieldCache)
      || (old(mapper.fieldCache).None? && catalogue.Returned? && mapper.fieldCache == Some(catalogue.value))
    ensures FieldCatalog.CachedMapping(mapper.fieldCache, catalogue) == FieldCatalog.CachedMapping(old(mapper.fieldCache), catalogue)
    ensures var g := Gather(Gateway.Fetched(issueApi, sourceKey), Gateway.Fetched(issueApi, targetKey),
                            FieldCatalog.CachedMapping(old(mapper.fieldCache), catalogue));
      && r == PairOutcome(g, dryRun, force, response, issueApi, updateApi)
      && sent == (if GoesAhead(g, dryRun, force, response) then WritesFor(g.value.value) else [])
      && client.writes == old(client.writes) + PairWrites(g, dryRun, force, response, issueApi)
    ensures dryRun ==> client.writes == old(client.writes)
    ensures client.now >= old(client.now)
  {
    var g := GatherPair(client, mapper, sourceKey, targetKey, issueApi, catalogue);
    if g.Raised? {
      return Raised(g.message), [];
    }
    if g.value.None? {
      return Returned(SyncResult(false, Skipped)), [];
    }
    var gathered := g.value.value;
    var isTargetJpd := DateValues.IsJpdIssue(gathered.target);
    if dryRun {
      return Returned(SyncResult(true, Success)), [];
    }
    if !force && !ConfirmationAccepted(response) {
      return Returned(SyncResult(false, Skipped)), [];
    }
    var success;
    success, sent := ExecuteSync(client, gathered.target, gathered.populated, gathered.mapping, isTargetJpd, issueApi, updateApi);
    r := Returned(SyncResult(success, if success then Success else Failed));
  }

  /**
   * The checks of `_clone_fields_with_status` before its decision: fetch both issues, read the
   * field mapping, extract the populated dates and read the source's issue type.
   */
  method GatherPair(client: Gateway.JiraClient, mapper: FieldCatalog.FieldMapper, sourceKey: IssueKey, targetKey: IssueKey,
                    issueApi: (IssueKey, nat) -> Outcome<Option<Issue>>, catalogue: Outcome<seq<FieldDef>>)
    returns (g: Outcome<Option<Gathered>>)
    requires client.Valid()
    modifies client, mapper
    ensures client.Valid()
    ensures mapper.fieldCache == old(mapper.fieldCache)
      || (old(mapper.fieldCache).None? && catalogue.Returned? && mapper.fieldCache == Some(catalogue.value))
    ensures g == Gather(Gateway.Fetched(issueApi, sourceKey), Gateway.Fetched(issueApi, targetKey),
                        FieldCatalog.CachedMapping(old(mapper.fieldCache), catalogue))
    ensures client.writes == old(client.writes) && client.now >= old(client.now)
  {
    var sourceIssue := client.GetIssue(sourceKey, issueApi);
    if sourceIssue.Raised? {
      return Raised(sourceIssue.message);
    }
    var targetIssue := client.GetIssue(targetKey, issueApi);
    if targetIssue.Raised? {
      return Raised(targetIssue.message);
    }
    if sourceIssue.value.None? || targetIssue.value.None? {
      return Returned(None);
    }
    var fieldMapping := mapper.GetFieldMapping(catalogue);
    if fieldMapping.Raised? {
      return Raised(fieldMapping.message);
    }
    var populatedFields := DateValues.ExtractPopulatedFields(sourceIssue.value.value, fieldMapping.value);
    if populatedFields.Raised? {
      return Raised(populatedFields.message);
    }
    if populatedFields.value == [] {
      return Returned(None);
    }
    if sourceIssue.value.value.issueType.None? {
      return Raised(AttributeErrorMessage);
    }
    g := Returned(Some(Gathered(targetIssue.value.value, fieldMapping.value, populatedFields.value)));
  }

  /** `clone_fields`: the pair sync with its status dropped. */
  method CloneFields(client: Gateway.JiraClient, mapper: FieldCatalog.FieldMapper,
                     sourceKey: IssueKey, targetKey: IssueKey, dryRun: bool, force: bool, response: string,
                     issueApi: (IssueKey, nat) -> Outcome<Option<Issue>>,
                     updateApi: (IssueKey, FieldId, string, nat) -> Outcome<()>,
                     catalogue: Outcome<seq<FieldDef>>)
    returns (r: Outcome<bool>)
    requires client.Valid()
    modifies client, mapper
    ensures client.Valid()
    ensures var g := Gather(Gateway.Fetched(issueApi, sourceKey), Gateway.Fetched(issueApi, targetKey),
                            FieldCatalog.CachedMapping(old(mapper.fieldCache), catalogue));
      && (g.Raised? ==> r == Raised(g.message))
      && (g == Returned(None) ==> r == Returned(false))
      && (g.Returned? && g.value.Some? && dryRun ==> r == Returned(true))
      && (g.Returned? && g.value.Some? && !dryRun && !force && !ConfirmationAccepted(response) ==> r == Returned(false))
      && (GoesAhead(g, dryRun, force, response) ==>
            r == Returned(SomeAccepted(g.value.value.target.key, WritesFor(g.value.value), issueApi, updateApi)))
      && client.writes == old(client.writes) + PairWrites(g, dryRun, force, response, issueApi)
    ensures dryRun ==> client.writes == old(client.writes)
  {
    var status, _ := CloneFieldsWithStatus(client, mapper, sourceKey, targetKey, dryRun, force, response,
                                           issueApi, updateApi, catalogue);
    r := if status.Raised? then Raised(status.message) else Returned(status.value.success);
  }
}

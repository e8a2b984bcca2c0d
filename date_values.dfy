/**
 * `DateFieldProcessor`: the issue-type test, the normalisation of a date value to its
 * `YYYY-MM-DD` part, the JSON interval text written to product-discovery fields, and the
 * extraction of the populated date fields of an issue.
 */
module DateValues {
  import opened Tracker
  import PyText
  import JsonText
  import FieldCatalog

  /** `is_jpd_issue`: the issue type reads as "Idea"; an unreadable type counts as not. */
  predicate IsJpdIssue(issue: Issue)
  {
    issue.issueType == Some("Idea")
  }

  /**
   * `format_date_string` on `str(value)`: the text before the first 'T' when there is one,
   * otherwise the text before the first space, otherwise the whole text.
   */
  function FormatDateString(text: string): (r: string)
    ensures |r| <= |text| && r == text[..|r|]
    ensures 'T' in text ==> |r| < |text| && text[|r|] == 'T' && 'T' !in r
    ensures 'T' !in text && ' ' in text ==> |r| < |text| && text[|r|] == ' ' && ' ' !in r
    ensures 'T' !in text && ' ' !in text ==> r == text
  {
    if 'T' in text then PyText.PrefixBefore(text, 'T')
    else if ' ' in text then PyText.PrefixBefore(text, ' ')
    else text
  }

  /**
   * A date followed by a time, joined by 'T' (ISO 8601) or by a space (`str(datetime)`),
   * normalises to the date; a bare date is left as it is.
   */
  lemma FormatDateKeepsDate(date: string, time: string)
    requires 'T' !in date && ' ' !in date
    ensures FormatDateString(date + ['T'] + time) == date
    ensures 'T' !in time ==> FormatDateString(date + [' '] + time) == date
    ensures FormatDateString(date) == date
  {
    CutAtSeparator(date, 'T', time);
    if 'T' !in time {
      var spaced := date + [' '] + time;
      assert 'T' !in spaced by {
        assert forall k :: 0 <= k < |date| ==> spaced[k] == date[k];
        assert forall k :: |date| < k < |spaced| ==> spaced[k] == time[k - |date| - 1];
      }
      CutAtSeparator(date, ' ', time);
    }
  }

  /** The text before the first `sep` of `date + [sep] + rest`, when `date` holds no `sep`, is `date`. */
  lemma CutAtSeparator(date: string, sep: char, rest: string)
    requires sep !in date
    ensures PyText.PrefixBefore(date + [sep] + rest, sep) == date
  {
    var s := date + [sep] + rest;
    var r := PyText.PrefixBefore(s, sep);
    assert forall k :: 0 <= k < |date| ==> s[k] == date[k];
    assert s[|date|] == sep;
    assert |r| <= |date|;
    assert |r| >= |date| by {
      assert forall k :: 0 <= k < |date| ==> s[k] != sep;
    }
    assert r == s[..|date|] == date;
  }

  /** `'{"start": '`: the text before the first string of the interval. */
  const StartKey: string := "{\"start\": "
  /** `', "end": '`: the text between the two strings of the interval. */
  const EndKey: string := ", \"end\": "

  /**
   * `format_for_jpd`: `json.dumps({"start": d, "end": d})` with the default separators, where
   * `d` is the normalised date. It reads back as the interval from `d` to `d`.
   */
  function FormatForJpd(text: string): (r: string)
    ensures var d := FormatDateString(text);
      ParseJpdInterval(r) == Some((d, d))
  {
    var d := FormatDateString(text);
    var r := StartKey + JsonText.Quote(d) + EndKey + JsonText.Quote(d) + "}";
    IntervalRoundTrip(d, d);
    r
  }

  /**
   * The reader of an interval object in exactly the shape `format_for_jpd` writes: the start
   * key, a string literal, the end key, a string literal and the closing brace.
   */
  function ParseJpdInterval(text: string): Option<(string, string)>
  {
    match ReadString(StartKey, text)
    case None => None
    case Some((start, rest)) =>
      match ReadString(EndKey, rest)
      case None => None
      case Some((end, rest2)) => if rest2 == "}" then Some((start, end)) else None
  }

  /**
   * Read `prefix`, then a string literal: the decoded string and the text after its closing
   * quote.
   */
  function ReadString(prefix: string, text: string): Option<(string, string)>
  {
    if !PyText.StartsWith(text, prefix + "\"") then None
    else
      var body := text[|prefix| + 1..];
      match JsonText.ScanString(body)
      case None => None
      case Some((s, width)) => Some((s, body[width + 1..]))
  }

  /** After any `prefix`, a quoted string reads back as itself, followed by exactly the text after it. */
  lemma ReadQuoted(prefix: string, x: string, tail: string)
    ensures ReadString(prefix, prefix + JsonText.Quote(x) + tail) == Some((x, tail))
  {
    var text := prefix + JsonText.Quote(x) + tail;
    var e := JsonText.Escape(x);
    var body := text[|prefix| + 1..];
    assert PyText.StartsWith(text, prefix + "\"") by {
      QuoteSplit(prefix, x, tail);
      assert text[..|prefix| + 1] == prefix + "\"";
    }
    assert JsonText.ScanString(body) == Some((x, |e|)) by {
      QuoteSplit(prefix, x, tail);
      assert body == e + ['"'] + tail;
      JsonText.ScanEscape(x, tail);
    }
    assert body[|e| + 1..] == tail by {
      QuoteSplit(prefix, x, tail);
      assert body == e + ['"'] + tail;
    }
  }

  lemma QuoteSplit(prefix: string, x: string, tail: string)
    ensures prefix + JsonText.Quote(x) + tail == (prefix + "\"") + (JsonText.Escape(x) + ['"'] + tail)
  {
  }

  /** Any two strings written in the interval shape read back as they were. */
  lemma IntervalRoundTrip(start: string, end: string)
    ensures ParseJpdInterval(StartKey + JsonText.Quote(start) + EndKey + JsonText.Quote(end) + "}") == Some((start, end))
  {
    var tail := EndKey + JsonText.Quote(end) + "}";
    assert StartKey + JsonText.Quote(start) + EndKey + JsonText.Quote(end) + "}" == StartKey + JsonText.Quote(start) + tail;
    ReadQuoted(StartKey, start, tail);
    ReadQuoted(EndKey, end, "}");
  }

  /** Text made of printable ASCII other than the quote and the backslash is written unescaped. */
  lemma {:induction false} EscapePlain(s: string)
    requires forall k :: 0 <= k < |s| ==> ' ' <= s[k] <= '~' && s[k] != '"' && s[k] != '\\'
    ensures JsonText.Escape(s) == s
  {
    if s != [] {
      EscapePlain(s[1..]);
      assert s == [s[0]] + s[1..];
    }
  }

  /**
   * A plain date such as `2025-03-01` (printable ASCII, no quote, backslash, 'T' or space) is
   * written as it is, between plain quotes: `{"start": "<d>", "end": "<d>"}`, with a space after
   * each colon and comma.
   */
  lemma PlainDateInterval(d: string)
    requires forall k :: 0 <= k < |d| ==> ' ' < d[k] <= '~' && d[k] != '"' && d[k] != '\\' && d[k] != 'T'
    ensures FormatForJpd(d) == StartKey + (['"'] + d + ['"']) + EndKey + (['"'] + d + ['"']) + "}"
  {
    assert FormatDateString(d) == d by {
      assert 'T' !in d && ' ' !in d;
    }
    EscapePlain(d);
  }

  // ---------------------------------------------------------------------------
  // Extracting the populated fields of an issue

  /** One value of the dict `extract_populated_fields` returns, with the name it is filed under. */
  datatype PopulatedField = PopulatedField(name: string, value: string, sourceId: FieldId, typ: string)

  /** Prefix the fields found so far to the outcome of the rest of the scan. */
  function Prepend(found: seq<PopulatedField>, rest: Outcome<seq<PopulatedField>>): Outcome<seq<PopulatedField>>
  {
    if rest.Raised? then rest else Returned(found + rest.value)
  }

  /**
   * What `extract_populated_fields` returns for the mapping's entries in order: the entries
   * whose primary id holds a truthy value on the issue; reading an id whose probe raises
   * propagates the AttributeError.
   */
  function PopulatedOf(issue: Issue, mapping: seq<FieldCatalog.MappingEntry>): Outcome<seq<PopulatedField>>
  {
    if mapping == [] then Returned([])
    else
      var e := mapping[0];
      if e.id in issue.probeRaises then Raised(AttributeErrorMessage)
      else
        var v := ReadField(issue, e.id);
        Prepend(if Truthy(v) then [PopulatedField(e.name, v.value, e.id, e.typ)] else [],
                PopulatedOf(issue, mapping[1..]))
  }

  /** The extraction raises exactly when some entry's primary id cannot be probed. */
  lemma {:induction false} PopulatedRaisesIff(issue: Issue, mapping: seq<FieldCatalog.MappingEntry>)
    ensures PopulatedOf(issue, mapping).Raised? <==>
      exists i :: 0 <= i < |mapping| && mapping[i].id in issue.probeRaises
  {
    if mapping != [] {
      PopulatedRaisesIff(issue, mapping[1..]);
      assert forall i :: 1 <= i < |mapping| ==> mapping[i] == mapping[1..][i - 1];
    }
  }

  /**
   * When it returns, the extraction holds one field per entry whose primary value is truthy,
   * carrying that value and the entry's primary id and type, and nothing else.
   */
  lemma {:induction false} PopulatedExactly(issue: Issue, mapping: seq<FieldCatalog.MappingEntry>)
    requires PopulatedOf(issue, mapping).Returned?
    ensures var found := PopulatedOf(issue, mapping).value;
      && (forall i :: 0 <= i < |mapping| && Truthy(ReadField(issue, mapping[i].id)) ==>
            PopulatedField(mapping[i].name, issue.fields[mapping[i].id], mapping[i].id, mapping[i].typ) in found)
      && (forall p :: p in found ==> exists i :: (0 <= i < |mapping| && Truthy(ReadField(issue, mapping[i].id))
            && p == PopulatedField(mapping[i].name, issue.fields[mapping[i].id], mapping[i].id, mapping[i].typ)))
  {
    if mapping != [] {
      var e := mapping[0];
      var tail := mapping[1..];
      PopulatedExactly(issue, tail);
      var found := PopulatedOf(issue, mapping).value;
      var rest := PopulatedOf(issue, tail).value;
      var v := ReadField(issue, e.id);
      var head := if Truthy(v) then [PopulatedField(e.name, v.value, e.id, e.typ)] else [];
      assert found == head + rest;
      forall i | 0 <= i < |mapping| && Truthy(ReadField(issue, mapping[i].id))
        ensures PopulatedField(mapping[i].name, issue.fields[mapping[i].id], mapping[i].id, mapping[i].typ) in found
      {
        if i > 0 {
          assert mapping[i] == tail[i - 1];
        }
      }
      forall p | p in found
        ensures exists i :: (0 <= i < |mapping| && Truthy(ReadField(issue, mapping[i].id))
          && p == PopulatedField(mapping[i].name, issue.fields[mapping[i].id], mapping[i].id, mapping[i].typ))
      {
        if p in rest {
          var j :| 0 <= j < |tail| && Truthy(ReadField(issue, tail[j].id))
            && p == PopulatedField(tail[j].name, issue.fields[tail[j].id], tail[j].id, tail[j].typ);
          assert tail[j] == mapping[j + 1];
        } else {
          assert p == head[0];
        }
      }
    }
  }

  lemma PrependTwice(a: seq<PopulatedField>, b: seq<PopulatedField>, rest: Outcome<seq<PopulatedField>>)
    ensures Prepend(a, Prepend(b, rest)) == Prepend(a + b, rest)
  {
    if rest.Returned? {
      assert a + (b + rest.value) == (a + b) + rest.value;
    }
  }

  /** `extract_populated_fields`: one pass over the mapping, collecting the truthy primaries. */
  method ExtractPopulatedFields(issue: Issue, fieldMapping: seq<FieldCatalog.MappingEntry>)
    returns (r: Outcome<seq<PopulatedField>>)
    ensures r == PopulatedOf(issue, fieldMapping)
  {
    var populated: seq<PopulatedField> := [];
    var i := 0;
    assert fieldMapping[i..] == fieldMapping;
    assert Prepend(populated, PopulatedOf(issue, fieldMapping)) == PopulatedOf(issue, fieldMapping) by {
      PrependTwice([], [], PopulatedOf(issue, fieldMapping));
      if PopulatedOf(issue, fieldMapping).Returned? {
        assert [] + PopulatedOf(issue, fieldMapping).value == PopulatedOf(issue, fieldMapping).value;
      }
    }
    while i < |fieldMapping|
      invariant 0 <= i <= |fieldMapping|
      invariant PopulatedOf(issue, fieldMapping) == Prepend(populated, PopulatedOf(issue, fieldMapping[i..]))
    {
      var info := fieldMapping[i];
      assert fieldMapping[i..][1..] == fieldMapping[i + 1..];
      if info.id in issue.probeRaises {
        return Raised(AttributeErrorMessage);
      }
      var fieldValue := ReadField(issue, info.id);
      ghost var found := if Truthy(fieldValue) then [PopulatedField(info.name, fieldValue.value, info.id, info.typ)] else [];
      PrependTwice(populated, found, PopulatedOf(issue, fieldMapping[i + 1..]));
      if Truthy(fieldValue) {
        populated := populated + [PopulatedField(info.name, fieldValue.value, info.id, info.typ)];
      } else {
        assert populated + found == populated;
      }
      i := i + 1;
    }
    assert fieldMapping[i..] == [];
    assert populated + [] == populated;
    r := Returned(populated);
  }
}

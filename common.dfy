/**
 * Values shared by every part of the model: the outcome of a Python call that
 * may raise, and the tracker records as the sync core sees them.
 */
module Tracker {

  datatype Option<+T> = None | Some(value: T)

  /** A Python call either returns a value or raises; an exception is kept as its text, `str(e)`. */
  datatype Outcome<+T> = Returned(value: T) | Raised(message: string)

  type FieldId = string
  type IssueKey = string

  /** The text `str(e)` of the AttributeError Python raises when an attribute cannot be read. */
  const AttributeErrorMessage: string := "AttributeError"

  /**
   * One entry of the tracker's field catalogue (`jira.fields()`): its id, display name,
   * whether it is a custom field, and `schema.type` when the entry has one.
   */
  datatype FieldDef = FieldDef(id: FieldId, name: string, custom: bool, schemaType: Option<string>)

  /**
   * One formal issue link. Each side holds the key of the linked issue when that side
   * (`outwardIssue`, `inwardIssue`) is present on the link.
   */
  datatype IssueLink = IssueLink(outward: Option<IssueKey>, inward: Option<IssueKey>)

  /**
   * An issue snapshot.
   *  - `issueType`: `issue.fields.issuetype.name`, or None when reading it raises;
   *  - `fields`: field values by id, as `str(value)`; an id that is not a key reads as None;
   *  - `probeRaises`: the ids for which `getattr(issue.fields, id, None)` raises AttributeError;
   *  - `links`: `issue.fields.issuelinks` (empty when the issue has none).
   */
  datatype Issue = Issue(
    key: IssueKey,
    issueType: Option<string>,
    fields: map<FieldId, string>,
    probeRaises: set<FieldId>,
    links: seq<IssueLink>)

  /** `getattr(issue.fields, id, None)` for an id whose probe does not raise. */
  function ReadField(issue: Issue, id: FieldId): Option<string>
  {
    if id in issue.fields then Some(issue.fields[id]) else None
  }

  /** Python truthiness of an optional string: None and "" are false. */
  predicate Truthy(v: Option<string>)
  {
    v.Some? && v.value != ""
  }
}

/**
 * The audit log schema (`auditLogSchema`): one required path, `action`; one
 * defaulted path, `timestamp`, set to the creation instant when not supplied;
 * every other path optional and unconstrained.
 */
module AuditLogSchema {
  import opened Wrappers
  import opened SchemaTypes

  /** The document as supplied by the caller: any path may be left undefined. */
  datatype AuditLogDoc = AuditLogDoc(
    user: Option<ObjectId>,
    action: Option<string>,
    resourceType: Option<string>,
    resourceId: Option<ObjectId>,
    ipAddress: Option<string>,
    userAgent: Option<string>,
    timestamp: Option<Time>,
    metadata: Option<Mixed>)

  /** A stored audit entry: `action` is present and `timestamp` has been filled. */
  datatype AuditEntry = AuditEntry(
    user: Option<ObjectId>,
    action: string,
    resourceType: Option<string>,
    resourceId: Option<ObjectId>,
    ipAddress: Option<string>,
    userAgent: Option<string>,
    timestamp: Time,
    metadata: Option<Mixed>)

  /** The `required` rule on a string path: undefined and the empty string both count as missing. */
  predicate RequiredStringPresent(s: Option<string>) {
    s.Some? && s.value != ""
  }

  /** The schema's constraint on a stored entry. */
  predicate Valid(e: AuditEntry) {
    e.action != ""
  }

  /** The stored entry seen as a document again, every path defined. */
  function ToDoc(e: AuditEntry): AuditLogDoc {
    AuditLogDoc(e.user, Some(e.action), e.resourceType, e.resourceId,
                e.ipAddress, e.userAgent, Some(e.timestamp), e.metadata)
  }

  /**
   * Constructing an audit entry: fills the `timestamp` default from `now` and
   * validates `action`. A supplied path is kept verbatim.
   */
  function Create(doc: AuditLogDoc, now: Time): (r: Result<AuditEntry, ValidationError>)
    ensures r.Success? <==> RequiredStringPresent(doc.action)
    ensures r.Failure? ==> r.error == Required("action")
    ensures r.Success? ==> Valid(r.value)
    ensures r.Success? ==> ToDoc(r.value) == doc.(timestamp := Some(doc.timestamp.GetOr(now)))
  {
    if !RequiredStringPresent(doc.action) then
      Failure(Required("action"))
    else
      Success(AuditEntry(doc.user, doc.action.value, doc.resourceType, doc.resourceId,
                         doc.ipAddress, doc.userAgent,
                         if doc.timestamp.Some? then doc.timestamp.value else now,
                         doc.metadata))
  }

  /** Storing an entry and constructing it again gives it back, whatever the clock says. */
  lemma CreateToDocRoundTrip(e: AuditEntry, now: Time)
    requires Valid(e)
    ensures Create(ToDoc(e), now) == Success(e)
  {
  }

  /** An entry without `action`, or with an empty one, is refused. */
  lemma MissingActionRejected(doc: AuditLogDoc, now: Time)
    requires doc.action == None || doc.action == Some("")
    ensures Create(doc, now) == Failure(Required("action"))
  {
  }

  /** The optional paths may be absent, any or all of them: only `action` decides acceptance. */
  lemma OnlyActionIsRequired(action: string, now: Time)
    requires action != ""
    ensures Create(AuditLogDoc(None, Some(action), None, None, None, None, None, None), now).Success?
  {
  }

  /** An omitted `timestamp` becomes the creation instant; a supplied one is kept. */
  lemma TimestampDefault(doc: AuditLogDoc, now: Time)
    requires Create(doc, now).Success?
    ensures doc.timestamp.None? ==> Create(doc, now).value.timestamp == now
    ensures doc.timestamp.Some? ==> Create(doc, now).value.timestamp == doc.timestamp.value
  {
    assert ToDoc(Create(doc, now).value).timestamp == Some(doc.timestamp.GetOr(now));
  }

  /** `action` and every other supplied path are stored verbatim. */
  lemma SuppliedPathsPreserved(doc: AuditLogDoc, now: Time)
    requires Create(doc, now).Success?
    ensures doc.action == Some(Create(doc, now).value.action)
    ensures Create(doc, now).value.user == doc.user
    ensures Create(doc, now).value.resourceType == doc.resourceType
    ensures Create(doc, now).value.resourceId == doc.resourceId
    ensures Create(doc, now).value.ipAddress == doc.ipAddress
    ensures Create(doc, now).value.userAgent == doc.userAgent
    ensures Create(doc, now).value.metadata == doc.metadata
  {
    assert ToDoc(Create(doc, now).value) == doc.(timestamp := Some(doc.timestamp.GetOr(now)));
  }

  /** `metadata` is unconstrained: replacing it never changes whether an entry is accepted. */
  lemma MetadataUnconstrained(doc: AuditLogDoc, m: Option<Mixed>, now: Time)
    ensures Create(doc.(metadata := m), now).Success? == Create(doc, now).Success?
  {
  }
}

/**
 * The feedback schema (`feedbackSchema`): three weak references, none of them
 * required; a `usefulness` rating restricted to an enum when supplied; free
 * `comments`; and a `createdAt` defaulted to the creation instant.
 */
module FeedbackSchema {
  import opened Wrappers
  import opened SchemaTypes

  /** The values `usefulness` may take. */
  const UsefulnessValues: set<string> := {"useful", "neutral", "incorrect"}

  /** The document as supplied by the caller: any path may be left undefined. */
  datatype FeedbackDoc = FeedbackDoc(
    doctor: Option<ObjectId>,
    healthRecord: Option<ObjectId>,
    alert: Option<ObjectId>,
    usefulness: Option<string>,
    comments: Option<string>,
    createdAt: Option<Time>)

  /** A stored feedback entry: `createdAt` has been filled. */
  datatype FeedbackEntry = FeedbackEntry(
    doctor: Option<ObjectId>,
    healthRecord: Option<ObjectId>,
    alert: Option<ObjectId>,
    usefulness: Option<string>,
    comments: Option<string>,
    createdAt: Time)

  /** The enum rule: an undefined value passes, a defined one must be listed. */
  predicate InEnum(v: Option<string>) {
    v.None? || v.value in UsefulnessValues
  }

  /** The schema's constraint on a stored entry. */
  predicate Valid(f: FeedbackEntry) {
    InEnum(f.usefulness)
  }

  /** The stored entry seen as a document again, every defaulted path defined. */
  function ToDoc(f: FeedbackEntry): FeedbackDoc {
    FeedbackDoc(f.doctor, f.healthRecord, f.alert, f.usefulness, f.comments, Some(f.createdAt))
  }

  /**
   * Constructing a feedback entry: fills the `createdAt` default from `now`
   * and validates `usefulness` against its enum.
   */
  function Create(doc: FeedbackDoc, now: Time): (r: Result<FeedbackEntry, ValidationError>)
    ensures r.Success? <==> doc.usefulness.None? || doc.usefulness.value in UsefulnessValues
    ensures r.Failure? ==> r.error == NotInEnum("usefulness", doc.usefulness.value)
    ensures r.Success? ==> Valid(r.value)
    ensures r.Success? ==> ToDoc(r.value) == doc.(createdAt := Some(doc.createdAt.GetOr(now)))
  {
    if !InEnum(doc.usefulness) then
      Failure(NotInEnum("usefulness", doc.usefulness.value))
    else
      Success(FeedbackEntry(doc.doctor, doc.healthRecord, doc.alert, doc.usefulness, doc.comments,
                            if doc.createdAt.Some? then doc.createdAt.value else now))
  }

  /** Storing an entry and constructing it again gives it back, whatever the clock says. */
  lemma CreateToDocRoundTrip(f: FeedbackEntry, now: Time)
    requires Valid(f)
    ensures Create(ToDoc(f), now) == Success(f)
  {
  }

  /** A supplied rating outside {useful, neutral, incorrect} is refused. */
  lemma UnknownUsefulnessRejected(doc: FeedbackDoc, v: string, now: Time)
    requires doc.usefulness == Some(v) && v !in UsefulnessValues
    ensures Create(doc, now) == Failure(NotInEnum("usefulness", v))
  {
  }

  /**
   * Nothing is required: with every path omitted the entry is accepted, with
   * no doctor, record, alert, rating or comment and `createdAt` set to now.
   */
  lemma EmptyFeedbackAccepted(now: Time)
    ensures Create(FeedbackDoc(None, None, None, None, None, None), now)
         == Success(FeedbackEntry(None, None, None, None, None, now))
  {
  }

  /**
   * References are plain identifiers: whether a document is accepted never
   * depends on which doctor, record or alert it names, or whether it names one.
   */
  lemma ReferencesUnchecked(doc: FeedbackDoc, d: Option<ObjectId>, h: Option<ObjectId>,
                            a: Option<ObjectId>, now: Time)
    ensures Create(doc.(doctor := d, healthRecord := h, alert := a), now).Success?
         == Create(doc, now).Success?
  {
  }

  /** `comments` accepts any string, the empty one included, and keeps it verbatim. */
  lemma AnyComment(doc: FeedbackDoc, c: string, now: Time)
    requires InEnum(doc.usefulness)
    ensures Create(doc.(comments := Some(c)), now).Success?
    ensures Create(doc.(comments := Some(c)), now).value.comments == Some(c)
  {
    assert ToDoc(Create(doc.(comments := Some(c)), now).value).comments == Some(c);
  }

  /** An omitted `createdAt` becomes the creation instant; a supplied one is kept. */
  lemma CreatedAtDefault(doc: FeedbackDoc, now: Time)
    requires Create(doc, now).Success?
    ensures doc.createdAt.None? ==> Create(doc, now).value.createdAt == now
    ensures doc.createdAt.Some? ==> Create(doc, now).value.createdAt == doc.createdAt.value
  {
    assert ToDoc(Create(doc, now).value).createdAt == Some(doc.createdAt.GetOr(now));
  }
}

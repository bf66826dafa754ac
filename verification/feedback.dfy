/** The feedback collection: an append-only log of what users sent with `/feedback`. */
module FeedbackStore {
  import opened Text

  /** One saved feedback document; `date` is the time the document was made. */
  datatype FeedbackEntry = FeedbackEntry(username: Option<string>, message: string, date: nat)

  class FeedbackLog {
    var entries: seq<FeedbackEntry>

    constructor ()
      ensures entries == []
    {
      entries := [];
    }

    /** `new Feedback({...}).save()`: the entry is added after every earlier one. */
    method Save(entry: FeedbackEntry)
      modifies this
      ensures entries == old(entries) + [entry]
    {
      entries := entries + [entry];
    }
  }
}

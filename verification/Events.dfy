/** The append-only event log: identities, events and their payload shapes. */
module Events {
  import opened Prelude

  datatype Role = Customer | Internal | System

  /** The authenticated caller. Only customers are scoped to accounts. */
  datatype Principal = Principal(email: string, accountIds: set<string>, role: Role) {
    predicate IsScoped() { role.Customer? }

    predicate IsInternal() { role.Internal? }

    predicate Sees(account: string) { IsScoped() ==> account in accountIds }
  }

  /** The JSON-safe values a form field can hold. */
  datatype Value = Text(text: string) | Number(number: int)

  type Values = map<string, Value>

  datatype AttachmentMeta = AttachmentMeta(
    submissionId: string,
    accountId: string,
    docType: string,
    seqNo: nat,
    originalFilename: string,
    storagePath: string,
    sha256: string,
    sizeBytes: nat,
    pageCount: nat,
    hasTextLayer: bool,
    uploadedAt: Time,
    uploadedBy: string)

  datatype Status = SUBMITTED | VALIDATED | CPI_PENDING | CPI_DONE | CPI_FAILED

  /** The event kinds, each with its payload. */
  datatype Payload =
    | Submitted(values: Values, attachments: seq<AttachmentMeta>)
    | AttachmentAdded(meta: AttachmentMeta)
    | FieldOverwritten(field: string, prior: Option<Value>, newValue: Option<Value>)
    | Validated
    | CpiDispatched(idempotencyKey: string, attempt: int)
    | CpiSucceeded(cpiReference: string, attempt: int)
    | CpiFailed(error: string, attempt: int, terminal: bool)
    | CreditNoteRecorded(creditNoteNo: string, outcome: string)

  type SeqNo = n: int | 1 <= n witness 1

  datatype Event = Event(
    submissionId: string,
    accountId: string,
    seqNo: SeqNo,
    actor: string,
    actorRole: Role,
    occurredAt: Time,
    payload: Payload)

  const SYSTEM_ACTOR := "cpi-dispatch@system.local"

  const SYSTEM := Principal(SYSTEM_ACTOR, {}, System)

  function SystemEvent(sid: string, account: string, seqNo: SeqNo, payload: Payload, at: Time): Event {
    Event(sid, account, seqNo, SYSTEM_ACTOR, System, at, payload)
  }
}

/** Delivery receipts of backend/app/api/v1/communications.py: deduplicate by provider event, then
    update attempt, communication and audit log. Each request is one serial transaction; a row's
    id is its position in its table. */
module Webhooks {
  import opened Basics
  import opened Text

  datatype Status = Sent | Success | Retryable | Failed | Delivered | Bounced | Complained

  datatype Channel = Email | Sms | Whatsapp

  /** What the provider answered to a send. */
  datatype Answer = Accepted(reference: string) | Refused(retryable: bool, error: string)

  datatype Attempt = Attempt(communication: nat, reference: Option<string>, status: Status, error: string)

  datatype Communication = Communication(status: Status)

  /** An audit row of a receipt: its event type is the channel and the status. */
  datatype Audit = Audit(channel: Channel, status: Status, communication: nat, reference: string)

  /** The provider and its event id. */
  datatype Key = Key(provider: string, event: string)

  /** A JSON object of strings; `data` is its nested object. */
  datatype Payload = Payload(fields: map<string, string>, data: map<string, string>)

  /** A request, with the fresh uuid and the digest of the payload that its handler would use. */
  datatype Receipt = Receipt(provider: string, payload: Payload, nonce: string, digest: string)

  datatype Db = Db(
    attempts: seq<Attempt>,
    communications: seq<Communication>,
    audit: seq<Audit>,
    webhooks: seq<Key>)

  datatype Reply = Processed | Duplicate | MultipleResults

  function Get(fields: map<string, string>, name: string, default: string): string {
    if name in fields then fields[name] else default
  }

  predicate IsVonage(provider: string) {
    provider == "vonage_sms" || provider == "vonage_whatsapp"
  }

  /** `_extract_webhook_event_id`. */
  function EventId(r: Receipt): string {
    var fields := r.payload.fields;
    if r.provider == "resend" then Get(fields, "id", r.nonce)
    else if r.provider == "twilio_sms" || r.provider == "twilio_voice" then
      Get(fields, "MessageSid", Get(fields, "CallSid", r.nonce))
    else if IsVonage(r.provider) then
      var uuid, status := Get(fields, "message_uuid", ""), Get(fields, "status", "");
      if uuid != "" && status != "" then uuid + ":" + status
      else if uuid != "" then uuid
      else r.nonce
    else r.digest
  }

  function KeyOf(r: Receipt): Key {
    Key(r.provider, EventId(r))
  }

  /** `_extract_webhook_event_type`, for the providers whose receipts are processed. */
  function EventType(r: Receipt): string {
    Get(r.payload.fields, if r.provider == "resend" then "type" else "status", "unknown")
  }

  /** The two status maps. */
  function NewStatus(r: Receipt): Option<Status> {
    if r.provider == "resend" then
      var t := EventType(r);
      if t == "email.delivered" then Some(Delivered)
      else if t == "email.bounced" then Some(Bounced)
      else if t == "email.failed" then Some(Failed)
      else if t == "email.complained" then Some(Complained)
      else None
    else if IsVonage(r.provider) then
      var t := Lower(EventType(r));
      if t == "delivered" || t == "read" then Some(Delivered)
      else if t == "failed" || t == "rejected" then Some(Failed)
      else if t == "submitted" then Some(Success)
      else None
    else None
  }

  function ChannelOf(r: Receipt): Channel {
    if r.provider == "resend" then Email else if r.provider == "vonage_sms" then Sms else Whatsapp
  }

  /** The provider's reference of the message that the receipt is about; empty when it names none. */
  function ReferenceOf(r: Receipt): string {
    if r.provider == "resend" then Get(r.payload.data, "email_id", "")
    else if IsVonage(r.provider) then Get(r.payload.fields, "message_uuid", "")
    else ""
  }

  datatype Match = NoRow | OneRow(id: nat) | ManyRows

  predicate IsAmbiguous(references: seq<Option<string>>, reference: string) {
    exists i, j :: 0 <= i < j < |references| && references[i] == Some(reference) && references[j] == Some(reference)
  }

  /** `scalar_one_or_none` over the attempts with a given reference, which need not be unique. */
  function Lookup(references: seq<Option<string>>, reference: string): (m: Match)
    ensures m.NoRow? <==> Some(reference) !in references
    ensures m.OneRow? ==> m.id < |references| && references[m.id] == Some(reference)
    ensures m.OneRow? ==> forall i :: 0 <= i < |references| && i != m.id ==> references[i] != Some(reference)
    ensures m.ManyRows? ==> IsAmbiguous(references, reference)
  {
    if references == [] then NoRow
    else
      var n := |references| - 1;
      assert references == references[..n] + [references[n]];
      var before := Lookup(references[..n], reference);
      assert before.OneRow? ==> references[..n][before.id] == references[before.id];
      if references[n] != Some(reference) then before
      else if before.NoRow? then OneRow(n)
      else ManyRows
  }

  function References(attempts: seq<Attempt>): (r: seq<Option<string>>)
    ensures |r| == |attempts| && forall i :: 0 <= i < |r| ==> r[i] == attempts[i].reference
  {
    if attempts == [] then []
    else References(attempts[..|attempts| - 1]) + [attempts[|attempts| - 1].reference]
  }

  lemma VonageFailure(r: Receipt)
    requires IsVonage(r.provider)
    ensures NewStatus(r) == Some(Failed) <==> Lower(EventType(r)) == "failed" || Lower(EventType(r)) == "rejected"
  {
  }

  lemma VonageApplied(db: Db, r: Receipt, id: nat, status: Status, channel: Channel, error: string)
    requires IsVonage(r.provider) && NewStatus(r) == Some(status) && ReferenceOf(r) != ""
    requires Lookup(References(db.attempts), ReferenceOf(r)) == OneRow(id)
    requires db.attempts[id].communication == id < |db.communications|
    requires channel == if r.provider == "vonage_sms" then Sms else Whatsapp
    requires error == if status == Failed then ErrorOf(r) else db.attempts[id].error
    ensures Applied(db, r) == Noted(db, id, status, error, channel, ReferenceOf(r))
  {
  }

  /** One attempt and its communication get a status, and the audit log a row. */
  function Noted(db: Db, id: nat, status: Status, error: string, channel: Channel, reference: string): Db
    requires id < |db.attempts| && id < |db.communications|
  {
    db.(attempts := db.attempts[id := db.attempts[id].(status := status, error := error)],
        communications := db.communications[id := Communication(status)],
        audit := db.audit + [Audit(channel, status, id, reference)])
  }

  // ---- The API ----

  class CommunicationApi {
    var attempts: seq<Attempt>
    var communications: seq<Communication>
    var audit: seq<Audit>
    var webhooks: seq<Key>

    ghost function State(): Db
      reads this
    {
      Db(attempts, communications, audit, webhooks)
    }

    ghost predicate Valid()
      reads this
    {
      && |attempts| == |communications|
      && forall i :: 0 <= i < |attempts| ==> attempts[i].communication == i
    }

    constructor ()
      ensures Valid() && State() == EMPTY
    {
      attempts, communications, audit, webhooks := [], [], [], [];
    }

    /** The part of both sending services that receipts refer to: every send creates one
        communication with one attempt. */
    method Send(answer: Answer)
      requires Valid()
      modifies this
      ensures Valid() && State() == AfterSend(old(State()), answer)
    {
      var communication := |communications|;
      communications := communications + [Communication(if answer.Accepted? then Sent else Failed)];
      if answer.Accepted? {
        attempts := attempts + [Attempt(communication, Some(answer.reference), Success, "")];
      } else {
        var status := if answer.retryable then Retryable else Failed;
        attempts := attempts + [Attempt(communication, None, status, answer.error)];
      }
    }

    method ReceiveWebhook(r: Receipt) returns (reply: Reply)
      requires Valid()
      modifies this
      ensures Valid()
      ensures reply == ReplyTo(old(State()), r) && State() == AfterReceipt(old(State()), r)
    {
      var key := KeyOf(r);
      if key in webhooks { return Duplicate; }
      var rollback := webhooks;
      webhooks := webhooks + [key];
      var failed := ProcessDeliveryWebhook(r);
      if failed {
        webhooks := rollback;
        return MultipleResults;
      }
      return Processed;
    }

    method ProcessDeliveryWebhook(r: Receipt) returns (failed: bool)
      requires Valid()
      modifies this`attempts, this`communications, this`audit
      ensures Valid()
      ensures failed == Raises(References(old(attempts)), r) && State() == Applied(old(State()), r)
    {
      failed := false;
      if r.provider == "resend" {
        failed := ProcessResendDelivery(r);
      } else if IsVonage(r.provider) {
        failed := ProcessVonageDelivery(r);
      }
    }

    /** The updates that both processors end with. */
    method Record(id: nat, status: Status, error: string, channel: Channel, reference: string)
      requires Valid() && id < |attempts|
      modifies this`attempts, this`communications, this`audit
      ensures Valid() && State() == Noted(old(State()), id, status, error, channel, reference)
    {
      attempts := attempts[id := attempts[id].(status := status)];
      attempts := attempts[id := attempts[id].(error := error)];
      var communication := attempts[id].communication;
      communications := communications[communication := Communication(status)];
      audit := audit + [Audit(channel, status, communication, reference)];
    }

    /** Looks the attempt up before it knows whether the event type matters. */
    method ProcessResendDelivery(r: Receipt) returns (failed: bool)
      requires Valid() && r.provider == "resend"
      modifies this`attempts, this`communications, this`audit
      ensures Valid()
      ensures failed == Raises(References(old(attempts)), r) && State() == Applied(old(State()), r)
    {
      var messageId := Get(r.payload.data, "email_id", "");
      if messageId == "" { return false; }
      var found := Lookup(References(attempts), messageId);
      if found.ManyRows? { return true; }
      if found.NoRow? { return false; }
      var status := NewStatus(r);
      if status.None? { return false; }
      Record(found.id, status.value, attempts[found.id].error, Email, messageId);
      return false;
    }

    /** Looks the attempt up only for an event type that matters. */
    method ProcessVonageDelivery(r: Receipt) returns (failed: bool)
      requires Valid() && IsVonage(r.provider)
      modifies this`attempts, this`communications, this`audit
      ensures Valid()
      ensures failed == Raises(References(old(attempts)), r) && State() == Applied(old(State()), r)
    {
      var messageId := Get(r.payload.fields, "message_uuid", "");
      if messageId == "" { return false; }
      var status := NewStatus(r);
      if status.None? { return false; }
      var found := Lookup(References(attempts), messageId);
      if found.ManyRows? { return true; }
      if found.NoRow? { return false; }
      VonageFailure(r);
      var refused := Lower(EventType(r)) == "failed" || Lower(EventType(r)) == "rejected";
      var error := if refused then ErrorOf(r) else attempts[found.id].error;
      var channel := if r.provider == "vonage_sms" then Sms else Whatsapp;
      VonageApplied(State(), r, found.id, status.value, channel, error);
      Record(found.id, status.value, error, channel, messageId);
      return false;
    }
  }

  // ---- The requests as functions ----

  const EMPTY := Db([], [], [], [])

  function ErrorOf(r: Receipt): string {
    "Vonage delivery failed: " + EventType(r) + " (code: " + Get(r.payload.fields, "err-code", "") + ")"
  }

  function AfterSend(db: Db, answer: Answer): Db {
    db.(communications := db.communications + [Communication(if answer.Accepted? then Sent else Failed)],
        attempts := db.attempts + [InitialAttempt(|db.communications|, answer)])
  }

  function InitialAttempt(communication: nat, answer: Answer): Attempt {
    if answer.Accepted? then Attempt(communication, Some(answer.reference), Success, "")
    else Attempt(communication, None, if answer.retryable then Retryable else Failed, answer.error)
  }

  /** The lookup finds two attempts, and the request fails. */
  predicate Raises(references: seq<Option<string>>, r: Receipt) {
    && ReferenceOf(r) != "" && Lookup(references, ReferenceOf(r)).ManyRows?
    && (r.provider == "resend" || NewStatus(r).Some?)
  }

  /** The attempt that the receipt is about and its new status; None when it changes nothing. */
  function Effect(references: seq<Option<string>>, r: Receipt): (e: Option<(nat, Status)>)
    ensures e.Some? ==> e.value.0 < |references| && references[e.value.0] == Some(ReferenceOf(r))
                        && NewStatus(r) == Some(e.value.1)
  {
    if ReferenceOf(r) == "" || NewStatus(r).None? then None
    else
      var found := Lookup(references, ReferenceOf(r));
      if found.OneRow? then Some((found.id, NewStatus(r).value)) else None
  }

  function Updated(a: Attempt, r: Receipt, status: Status): Attempt {
    if status == Failed && r.provider != "resend" then a.(status := status, error := ErrorOf(r))
    else a.(status := status)
  }

  function Applied(db: Db, r: Receipt): Db {
    var e := Effect(References(db.attempts), r);
    if e.None? then db
    else
      var i, status := e.value.0, e.value.1;
      var c := db.attempts[i].communication;
      db.(attempts := db.attempts[i := Updated(db.attempts[i], r, status)],
          communications := if c < |db.communications| then db.communications[c := Communication(status)]
                            else db.communications,
          audit := db.audit + [Audit(ChannelOf(r), status, c, ReferenceOf(r))])
  }

  function ReplyTo(db: Db, r: Receipt): Reply {
    if KeyOf(r) in db.webhooks then Duplicate
    else if Raises(References(db.attempts), r) then MultipleResults
    else Processed
  }

  function AfterReceipt(db: Db, r: Receipt): Db {
    if ReplyTo(db, r) != Processed then db
    else Applied(db.(webhooks := db.webhooks + [KeyOf(r)]), r)
  }
}

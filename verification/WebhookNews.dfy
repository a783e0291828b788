/** What each kind of delivery receipt does to the tables, spelled out in the words of the payloads:
    the news of Resend and Vonage, and that nothing else is news. */
module WebhookNews {
  import opened Basics
  import opened Text
  import opened Spelling
  import opened Webhooks
  import opened WebhookRuns

  predicate HasField(fields: map<string, string>, name: string, value: string) {
    name in fields && fields[name] == value
  }

  /** What a Resend event type says of an email. */
  predicate EmailNews(word: string, status: Status) {
    || (word == "email.delivered" && status == Delivered)
    || (word == "email.bounced" && status == Bounced)
    || (word == "email.failed" && status == Failed)
    || (word == "email.complained" && status == Complained)
  }

  /** What a Vonage status, in small letters, says of a text message. */
  predicate PhoneNews(word: string, status: Status) {
    || (word == "delivered" && status == Delivered)
    || (word == "read" && status == Delivered)
    || (word == "failed" && status == Failed)
    || (word == "rejected" && status == Failed)
    || (word == "submitted" && status == Success)
  }

  /** The attempt in this row is the only one with the reference. */
  predicate IsSole(attempts: seq<Attempt>, id: nat, reference: string) {
    && reference != "" && id < |attempts| && attempts[id].reference == Some(reference)
    && forall i :: 0 <= i < |attempts| && i != id ==> attempts[i].reference != Some(reference)
  }

  /** One attempt and its communication have the status, and the last row of the audit log tells it. */
  predicate IsTold(db: Db, db': Db, id: nat, status: Status, error: string, channel: Channel, reference: string) {
    && id < |db.attempts| && id < |db.communications|
    && db'.attempts == db.attempts[id := Attempt(id, Some(reference), status, error)]
    && db'.communications == db.communications[id := Communication(status)]
    && db'.audit == db.audit + [Audit(channel, status, id, reference)]
  }

  predicate IsUntold(db: Db, db': Db) {
    db'.attempts == db.attempts && db'.communications == db.communications && db'.audit == db.audit
  }

  /** The provider's id of the event: the first of these fields that the payload has, or a fresh one;
      for other providers the payload's digest. */
  ghost predicate HasId(r: Receipt, id: string) {
    var fields := r.payload.fields;
    || (r.provider == "resend" && (HasField(fields, "id", id) || ("id" !in fields && id == r.nonce)))
    || (&& (r.provider == "twilio_sms" || r.provider == "twilio_voice")
        && (|| HasField(fields, "MessageSid", id)
            || ("MessageSid" !in fields && HasField(fields, "CallSid", id))
            || ("MessageSid" !in fields && "CallSid" !in fields && id == r.nonce)))
    || (&& (r.provider == "vonage_sms" || r.provider == "vonage_whatsapp")
        && exists message, status ::
             && HasField(fields, "message_uuid", message) && HasField(fields, "status", status)
             && message != "" && status != "" && id == message + ":" + status)
    || (&& (r.provider == "vonage_sms" || r.provider == "vonage_whatsapp")
        && ((id != "" && HasField(fields, "message_uuid", id) && "status" !in fields)
            || ("message_uuid" !in fields && id == r.nonce)))
    || (&& r.provider != "resend" && r.provider != "twilio_sms" && r.provider != "twilio_voice"
        && r.provider != "vonage_sms" && r.provider != "vonage_whatsapp" && id == r.digest)
  }

  // ---- The status maps ----

  lemma PhoneWordsAreSmall(word: string, status: Status)
    requires PhoneNews(word, status)
    ensures IsSmall(word)
  {
  }

  /** The status map, read in small letters. */
  lemma PhoneStatus(r: Receipt, status: Status)
    requires IsVonage(r.provider)
    ensures NewStatus(r) == Some(status) <==> PhoneNews(Lower(EventType(r)), status)
  {
  }

  lemma EmailStatus(r: Receipt, status: Status)
    requires r.provider == "resend"
    ensures NewStatus(r) == Some(status) <==> EmailNews(EventType(r), status)
  {
  }

  lemma Finds(attempts: seq<Attempt>, id: nat, reference: string)
    requires IsSole(attempts, id, reference)
    ensures Lookup(References(attempts), reference) == OneRow(id)
  {
    assert References(attempts)[id] == Some(reference);
  }

  lemma AppliedTells(db: Db, r: Receipt, id: nat, status: Status)
    requires IsSole(db.attempts, id, ReferenceOf(r)) && NewStatus(r) == Some(status)
    requires id < |db.communications| && db.attempts[id].communication == id
    ensures IsTold(db, Applied(db, r), id, status,
                   if status == Failed && r.provider != "resend" then ErrorOf(r) else db.attempts[id].error,
                   ChannelOf(r), ReferenceOf(r))
  {
    Finds(db.attempts, id, ReferenceOf(r));
    assert Effect(References(db.attempts), r) == Some((id, status));
  }

  lemma TellsAfter(ss: seq<Step>, r: Receipt, id: nat, status: Status)
    requires IsSole(Run(ss).attempts, id, ReferenceOf(r)) && NewStatus(r) == Some(status)
    requires KeyOf(r) !in Run(ss).webhooks
    ensures IsTold(Run(ss), Run(ss + [Receiving(r)]), id, status,
                   if status == Failed && r.provider != "resend" then ErrorOf(r) else Run(ss).attempts[id].error,
                   ChannelOf(r), ReferenceOf(r))
  {
    RunOne(ss, Receiving(r));
    RunHasTables(ss);
    Finds(Run(ss).attempts, id, ReferenceOf(r));
    ReplyCases(Run(ss), r);
    AppliedTells(Run(ss).(webhooks := Run(ss).webhooks + [KeyOf(r)]), r, id, status);
  }

  // ---- Main results ----

  /** A send starts with SUCCESS and SENT, or with RETRYABLE or FAILED and FAILED. */
  lemma SendStarts(ss: seq<Step>, answer: Answer)
    ensures var db, db' := Run(ss), Run(ss + [Sending(answer)]);
            && db'.audit == db.audit && db'.webhooks == db.webhooks
            && |db'.attempts| == |db'.communications| == |db.attempts| + 1
            && db'.attempts[..|db.attempts|] == db.attempts && db'.communications[..|db.attempts|] == db.communications
            && var sent, communication := db'.attempts[|db.attempts|], db'.communications[|db.attempts|];
               && sent.communication == |db.attempts|
               && (answer.Accepted? ==>
                     && sent.status == Success && sent.reference == Some(answer.reference) && sent.error == ""
                     && communication.status == Sent)
               && (answer.Refused? ==>
                     && sent.reference == None && sent.error == answer.error && communication.status == Failed
                     && (answer.retryable ==> sent.status == Retryable)
                     && (!answer.retryable ==> sent.status == Failed))
  {
    RunOne(ss, Sending(answer));
    RunHasTables(ss);
  }

  /** The first receipt of an email event leaves its news on attempt, communication and audit log. */
  lemma EmailIsTold(ss: seq<Step>, r: Receipt, event: string, id: nat, reference: string, word: string,
                    status: Status)
    requires IsSole(Run(ss).attempts, id, reference)
    requires r.provider == "resend" && HasField(r.payload.data, "email_id", reference)
    requires HasField(r.payload.fields, "type", word) && EmailNews(word, status)
    requires HasId(r, event) && Key("resend", event) !in Run(ss).webhooks
    ensures IsTold(Run(ss), Run(ss + [Receiving(r)]), id, status, Run(ss).attempts[id].error, Email, reference)
  {
    EmailStatus(r, status);
    TellsAfter(ss, r, id, status);
  }

  /** So does the first receipt of a text message's status, in whatever letters it is written; a
      failure also leaves its code. */
  lemma PhoneIsTold(ss: seq<Step>, r: Receipt, id: nat, reference: string, text: string, word: string, status: Status)
    requires IsSole(Run(ss).attempts, id, reference)
    requires r.provider == "vonage_sms" || r.provider == "vonage_whatsapp"
    requires HasField(r.payload.fields, "message_uuid", reference) && HasField(r.payload.fields, "status", text)
    requires Spells(text, word) && PhoneNews(word, status)
    requires Key(r.provider, reference + ":" + text) !in Run(ss).webhooks
    ensures var channel := if r.provider == "vonage_sms" then Sms else Whatsapp;
            var code := if "err-code" in r.payload.fields then r.payload.fields["err-code"] else "";
            var error := if word == "failed" || word == "rejected" then
                           "Vonage delivery failed: " + text + " (code: " + code + ")"
                         else Run(ss).attempts[id].error;
            IsTold(Run(ss), Run(ss + [Receiving(r)]), id, status, error, channel, reference)
  {
    PhoneWordsAreSmall(word, status);
    SpellingIsLowering(text, word);
    PhoneStatus(r, status);
    assert text != "";
    TellsAfter(ss, r, id, status);
  }

  /** The receipt brings news of the message with this reference. */
  ghost predicate IsNews(r: Receipt, reference: string) {
    || (&& r.provider == "resend" && HasField(r.payload.data, "email_id", reference)
        && exists word, status :: HasField(r.payload.fields, "type", word) && EmailNews(word, status))
    || (&& (r.provider == "vonage_sms" || r.provider == "vonage_whatsapp")
        && HasField(r.payload.fields, "message_uuid", reference)
        && exists text, word, status ::
             HasField(r.payload.fields, "status", text) && Spells(text, word) && PhoneNews(word, status))
  }

  lemma NewsIs(r: Receipt)
    requires ReferenceOf(r) != "" && NewStatus(r).Some?
    ensures IsNews(r, ReferenceOf(r))
  {
    var status := NewStatus(r).value;
    if r.provider == "resend" {
      EmailStatus(r, status);
      assert EventType(r) != "unknown";
      assert HasField(r.payload.fields, "type", EventType(r));
    } else {
      PhoneStatus(r, status);
      var word := Lower(EventType(r));
      PhoneWordsAreSmall(word, status);
      SpellingIsLowering(EventType(r), word);
      UnknownIsNoNews();
      assert HasField(r.payload.fields, "status", EventType(r));
    }
  }

  lemma UnknownIsNoNews()
    ensures Lower("unknown")[0] == 'u'
  {
  }

  /** Nothing else changes these tables: neither another event, type or provider, nor a message that
      no attempt or more than one is about. */
  lemma NothingElseIsTold(ss: seq<Step>, r: Receipt)
    requires forall id, reference :: IsSole(Run(ss).attempts, id, reference) ==> !IsNews(r, reference)
    ensures IsUntold(Run(ss), Run(ss + [Receiving(r)]))
  {
    RunOne(ss, Receiving(r));
    var e := Effect(References(Run(ss).attempts), r);
    if e.Some? {
      NewsIs(r);
      assert IsSole(Run(ss).attempts, e.value.0, ReferenceOf(r));
      assert false;
    }
  }

  /** A receipt is a duplicate exactly when one with its provider and id is on file, and is on file
      afterwards unless it failed. A duplicate changes nothing. */
  lemma DuplicateIff(ss: seq<Step>, r: Receipt, id: string)
    requires HasId(r, id)
    ensures ReplyTo(Run(ss), r) == Duplicate <==> Key(r.provider, id) in Run(ss).webhooks
    ensures ReplyTo(Run(ss), r) == Processed ==>
              Run(ss + [Receiving(r)]).webhooks == Run(ss).webhooks + [Key(r.provider, id)]
    ensures ReplyTo(Run(ss), r) != Processed ==> Run(ss + [Receiving(r)]) == Run(ss)
  {
    RunOne(ss, Receiving(r));
    ReplyCases(Run(ss), r);
    assert EventId(r) == id;
  }

  /** Two attempts have the reference. */
  predicate IsShared(attempts: seq<Attempt>, reference: string) {
    exists i, j :: 0 <= i < j < |attempts| && attempts[i].reference == Some(reference)
                   && attempts[j].reference == Some(reference)
  }

  lemma ManyRowsIff(attempts: seq<Attempt>, reference: string)
    ensures Lookup(References(attempts), reference).ManyRows? <==> IsShared(attempts, reference)
  {
    var references := References(attempts);
    if i, j :| 0 <= i < j < |attempts| && attempts[i].reference == Some(reference)
               && attempts[j].reference == Some(reference) {
      assert references[i] == references[j] == Some(reference);
    }
    if IsAmbiguous(references, reference) {
      var i, j :| 0 <= i < j < |references| && references[i] == Some(reference) && references[j] == Some(reference);
      assert attempts[i].reference == attempts[j].reference == Some(reference);
    }
  }

  lemma NewsHasStatus(r: Receipt, reference: string)
    requires IsNews(r, reference)
    ensures NewStatus(r).Some? && ReferenceOf(r) == reference
  {
    if r.provider == "resend" {
      var word, status :| HasField(r.payload.fields, "type", word) && EmailNews(word, status);
      EmailStatus(r, status);
    } else {
      var text, word, status :| HasField(r.payload.fields, "status", text) && Spells(text, word)
                                && PhoneNews(word, status);
      PhoneWordsAreSmall(word, status);
      SpellingIsLowering(text, word);
      PhoneStatus(r, status);
    }
  }

  /** The receipt makes the handler look the reference up: news does, and any event of Resend. */
  ghost predicate LooksUp(r: Receipt, reference: string) {
    && reference != ""
    && (IsNews(r, reference) || (r.provider == "resend" && HasField(r.payload.data, "email_id", reference)))
  }

  lemma LooksUpIff(r: Receipt)
    ensures (ReferenceOf(r) != "" && (r.provider == "resend" || NewStatus(r).Some?)) <==> LooksUp(r, ReferenceOf(r))
    ensures forall reference :: LooksUp(r, reference) ==> reference == ReferenceOf(r)
  {
    if ReferenceOf(r) != "" && NewStatus(r).Some? { NewsIs(r); }
    forall reference | LooksUp(r, reference)
      ensures reference == ReferenceOf(r) && (r.provider == "resend" || NewStatus(r).Some?)
    {
      if IsNews(r, reference) { NewsHasStatus(r, reference); }
    }
  }

  /** A receipt that is no duplicate fails exactly when it makes the handler look up a reference that
      two attempts share. */
  lemma FailsIff(ss: seq<Step>, r: Receipt, id: string)
    requires HasId(r, id)
    ensures ReplyTo(Run(ss), r) == MultipleResults <==>
            && Key(r.provider, id) !in Run(ss).webhooks
            && exists reference :: LooksUp(r, reference) && IsShared(Run(ss).attempts, reference)
  {
    DuplicateIff(ss, r, id);
    LooksUpIff(r);
    ManyRowsIff(Run(ss).attempts, ReferenceOf(r));
  }
}

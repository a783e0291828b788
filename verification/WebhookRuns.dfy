/** Runs of sends and receipts: which receipt decides a status, what the audit log says, and what
    repeating, dropping or delivering receipts too early changes. */
module WebhookRuns {
  import opened Basics
  import opened Webhooks

  datatype Step = Sending(answer: Answer) | Receiving(receipt: Receipt)

  function After(db: Db, s: Step): Db {
    match s
    case Sending(answer) => AfterSend(db, answer)
    case Receiving(receipt) => AfterReceipt(db, receipt)
  }

  function Run(ss: seq<Step>): Db {
    if ss == [] then EMPTY else After(Run(ss[..|ss| - 1]), ss[|ss| - 1])
  }

  // ---- The history, without any table ----

  /** The provider's answers, in order of sending. */
  function Answers(ss: seq<Step>): seq<Answer> {
    if ss == [] then []
    else if ss[|ss| - 1].Sending? then Answers(ss[..|ss| - 1]) + [ss[|ss| - 1].answer]
    else Answers(ss[..|ss| - 1])
  }

  function Given(answers: seq<Answer>): (r: seq<Option<string>>)
    ensures |r| == |answers|
    ensures forall i :: 0 <= i < |r| ==> r[i] == if answers[i].Accepted? then Some(answers[i].reference) else None
  {
    seq(|answers|, i requires 0 <= i < |answers| => if answers[i].Accepted? then Some(answers[i].reference) else None)
  }

  /** Some receipt with this key was answered without failing. */
  predicate Recorded(ss: seq<Step>, key: Key) {
    && ss != []
    && var n := |ss| - 1;
       || Recorded(ss[..n], key)
       || (ss[n].Receiving? && KeyOf(ss[n].receipt) == key && !Raises(Given(Answers(ss[..n])), ss[n].receipt))
  }

  /** What a receipt changes if it comes now: only the first recorded one of its key changes anything. */
  function EffectNow(ss: seq<Step>, r: Receipt): Option<(nat, Status)> {
    if Recorded(ss, KeyOf(r)) then None else Effect(Given(Answers(ss)), r)
  }

  function EffectOfLast(ss: seq<Step>): Option<(nat, Status)>
    requires ss != []
  {
    if ss[|ss| - 1].Receiving? then EffectNow(ss[..|ss| - 1], ss[|ss| - 1].receipt) else None
  }

  /** The status that the last effective receipt about a message told. */
  function Told(ss: seq<Step>, message: nat): Option<Status> {
    if ss == [] then None
    else
      var e := EffectOfLast(ss);
      if e.Some? && e.value.0 == message then Some(e.value.1) else Told(ss[..|ss| - 1], message)
  }

  function Effects(ss: seq<Step>): nat {
    if ss == [] then 0 else Effects(ss[..|ss| - 1]) + (if EffectOfLast(ss).Some? then 1 else 0)
  }

  /** The status of the last audit row about a message. */
  function LastAudit(audit: seq<Audit>, message: nat): Option<Status> {
    if audit == [] then None
    else if audit[|audit| - 1].communication == message then Some(audit[|audit| - 1].status)
    else LastAudit(audit[..|audit| - 1], message)
  }

  function OrElse(told: Option<Status>, initial: Status): Status {
    if told.Some? then told.value else initial
  }

  // ---- Tables and history agree ----

  ghost predicate Tables(ss: seq<Step>, db: Db) {
    && |db.attempts| == |db.communications| == |Answers(ss)|
    && References(db.attempts) == Given(Answers(ss))
    && (forall key :: key in db.webhooks <==> Recorded(ss, key))
    && (forall i :: 0 <= i < |db.attempts| ==> db.attempts[i].communication == i)
  }

  predicate StatusAt(ss: seq<Step>, db: Db, i: nat)
    requires i < |db.attempts| == |db.communications| == |Answers(ss)|
  {
    && db.attempts[i].status == OrElse(Told(ss, i), InitialAttempt(i, Answers(ss)[i]).status)
    && db.communications[i].status == OrElse(Told(ss, i), if Answers(ss)[i].Accepted? then Sent else Failed)
  }

  ghost predicate Statuses(ss: seq<Step>, db: Db)
    requires |db.attempts| == |db.communications| == |Answers(ss)|
  {
    forall i :: 0 <= i < |db.attempts| ==> StatusAt(ss, db, i)
  }

  /** What one receipt does to the tables. */
  ghost predicate Moves(db: Db, db': Db, e: Option<(nat, Status)>) {
    && |db'.attempts| == |db.attempts| && |db'.communications| == |db.communications|
    && (forall i :: 0 <= i < |db.attempts| ==>
          && db'.attempts[i].reference == db.attempts[i].reference
          && db'.attempts[i].communication == db.attempts[i].communication
          && db'.attempts[i].status == (if e.Some? && e.value.0 == i then e.value.1 else db.attempts[i].status))
    && (forall i :: 0 <= i < |db.communications| ==>
          db'.communications[i].status == if e.Some? && e.value.0 == i then e.value.1 else db.communications[i].status)
    && |db'.audit| == |db.audit| + (if e.Some? then 1 else 0)
    && db'.audit[..|db.audit|] == db.audit
    && (e.Some? ==> db'.audit[|db.audit|].communication == e.value.0 && db'.audit[|db.audit|].status == e.value.1)
  }

  lemma AppliedMoves(db: Db, r: Receipt)
    requires |db.attempts| == |db.communications|
    requires forall i :: 0 <= i < |db.attempts| ==> db.attempts[i].communication == i
    ensures Moves(db, Applied(db, r), Effect(References(db.attempts), r))
  {
    var e := Effect(References(db.attempts), r);
    if e.Some? { UpdateMoves(db, r, e.value.0, e.value.1); }
  }

  lemma UpdateMoves(db: Db, r: Receipt, i: nat, status: Status)
    requires |db.attempts| == |db.communications| && i < |db.attempts| && db.attempts[i].communication == i
    requires Effect(References(db.attempts), r) == Some((i, status))
    ensures Moves(db, Applied(db, r), Some((i, status)))
  {
    var row := Updated(db.attempts[i], r, status);
    var logged := db.audit + [Audit(ChannelOf(r), status, i, ReferenceOf(r))];
    assert logged[..|db.audit|] == db.audit;
    assert Applied(db, r) == db.(attempts := db.attempts[i := row],
                                 communications := db.communications[i := Communication(status)], audit := logged);
  }

  lemma ReplyCases(db: Db, r: Receipt)
    ensures ReplyTo(db, r) == Duplicate <==> KeyOf(r) in db.webhooks
    ensures ReplyTo(db, r) == MultipleResults ==>
              Raises(References(db.attempts), r) && Effect(References(db.attempts), r).None?
    ensures ReplyTo(db, r) == Processed ==> !Raises(References(db.attempts), r)
                                            && AfterReceipt(db, r).webhooks == db.webhooks + [KeyOf(r)]
  {
  }

  lemma MovesWhateverRecorded(db: Db, webhooks: seq<Key>, db': Db, e: Option<(nat, Status)>)
    requires Moves(db.(webhooks := webhooks), db', e)
    ensures Moves(db, db', e)
  {
  }

  lemma ProcessedMoves(db: Db, r: Receipt)
    requires |db.attempts| == |db.communications| && ReplyTo(db, r) == Processed
    requires forall i :: 0 <= i < |db.attempts| ==> db.attempts[i].communication == i
    ensures Moves(db, AfterReceipt(db, r), Effect(References(db.attempts), r))
  {
    var recorded := db.(webhooks := db.webhooks + [KeyOf(r)]);
    AppliedMoves(recorded, r);
    MovesWhateverRecorded(db, recorded.webhooks, Applied(recorded, r), Effect(References(db.attempts), r));
  }

  lemma RequestMoves(db: Db, r: Receipt)
    requires |db.attempts| == |db.communications|
    requires forall i :: 0 <= i < |db.attempts| ==> db.attempts[i].communication == i
    ensures Moves(db, AfterReceipt(db, r), if KeyOf(r) in db.webhooks then None else Effect(References(db.attempts), r))
  {
    ReplyCases(db, r);
    if ReplyTo(db, r) == Processed { ProcessedMoves(db, r); }
  }

  lemma ReceiptMoves(ss: seq<Step>, db: Db)
    requires ss != [] && ss[|ss| - 1].Receiving? && Tables(ss[..|ss| - 1], db)
    ensures Moves(db, After(db, ss[|ss| - 1]), EffectOfLast(ss))
  {
    RequestMoves(db, ss[|ss| - 1].receipt);
  }

  lemma RequestRecords(db: Db, r: Receipt, key: Key)
    ensures key in AfterReceipt(db, r).webhooks <==>
            key in db.webhooks || (key == KeyOf(r) && !Raises(References(db.attempts), r))
  {
    ReplyCases(db, r);
  }

  lemma ReceiptRecords(ss: seq<Step>, db: Db)
    requires ss != [] && ss[|ss| - 1].Receiving? && Tables(ss[..|ss| - 1], db)
    ensures forall key :: key in After(db, ss[|ss| - 1]).webhooks <==> Recorded(ss, key)
  {
    forall key ensures key in After(db, ss[|ss| - 1]).webhooks <==> Recorded(ss, key) {
      RequestRecords(db, ss[|ss| - 1].receipt, key);
    }
  }

  lemma ReferencesFollow(db: Db, db': Db, e: Option<(nat, Status)>)
    requires Moves(db, db', e)
    ensures References(db'.attempts) == References(db.attempts)
  {
  }

  lemma ReferencesAppend(attempts: seq<Attempt>, attempt: Attempt)
    ensures References(attempts + [attempt]) == References(attempts) + [attempt.reference]
  {
    assert (attempts + [attempt])[..|attempts|] == attempts;
  }

  lemma GivenAppend(answers: seq<Answer>, answer: Answer)
    ensures Given(answers + [answer]) == Given(answers) + [if answer.Accepted? then Some(answer.reference) else None]
  {
  }

  lemma SendHasTables(ss: seq<Step>, db: Db)
    requires ss != [] && ss[|ss| - 1].Sending? && Tables(ss[..|ss| - 1], db)
    ensures Tables(ss, AfterSend(db, ss[|ss| - 1].answer))
  {
    var n := |ss| - 1;
    ReferencesAppend(db.attempts, InitialAttempt(|db.communications|, ss[n].answer));
    GivenAppend(Answers(ss[..n]), ss[n].answer);
  }

  lemma ReceiptHasTables(ss: seq<Step>, db: Db)
    requires ss != [] && ss[|ss| - 1].Receiving? && Tables(ss[..|ss| - 1], db)
    ensures Tables(ss, After(db, ss[|ss| - 1]))
  {
    ReceiptMoves(ss, db);
    ReceiptRecords(ss, db);
    ReferencesFollow(db, After(db, ss[|ss| - 1]), EffectOfLast(ss));
  }

  lemma {:induction false} RunHasTables(ss: seq<Step>)
    ensures Tables(ss, Run(ss))
  {
    if ss != [] {
      var n := |ss| - 1;
      RunHasTables(ss[..n]);
      if ss[n].Sending? { SendHasTables(ss, Run(ss[..n])); } else { ReceiptHasTables(ss, Run(ss[..n])); }
    }
  }

  lemma NothingToldYet(ss: seq<Step>, message: nat)
    requires message >= |Answers(ss)|
    ensures Told(ss, message) == None
  {
  }

  lemma ReceiptSetsStatus(ss: seq<Step>, db: Db, i: nat)
    requires ss != [] && ss[|ss| - 1].Receiving? && Tables(ss[..|ss| - 1], db)
    requires Tables(ss, After(db, ss[|ss| - 1])) && Moves(db, After(db, ss[|ss| - 1]), EffectOfLast(ss))
    requires i < |db.attempts| && StatusAt(ss[..|ss| - 1], db, i)
    ensures StatusAt(ss, After(db, ss[|ss| - 1]), i)
  {
  }

  lemma ReceiptKeepsStatuses(ss: seq<Step>, db: Db)
    requires ss != [] && ss[|ss| - 1].Receiving? && Tables(ss[..|ss| - 1], db) && Statuses(ss[..|ss| - 1], db)
    requires Tables(ss, After(db, ss[|ss| - 1]))
    ensures Statuses(ss, After(db, ss[|ss| - 1]))
  {
    var db' := After(db, ss[|ss| - 1]);
    ReceiptMoves(ss, db);
    forall i | 0 <= i < |db'.attempts| ensures StatusAt(ss, db', i) {
      ReceiptSetsStatus(ss, db, i);
    }
  }

  /** A send leaves the older rows alone. */
  lemma SendKeepsOldStatus(prior: seq<Step>, ss: seq<Step>, db: Db, answer: Answer, i: nat)
    requires ss == prior + [Sending(answer)] && ss[..|ss| - 1] == prior
    requires i < |db.attempts| == |db.communications| == |Answers(prior)| && StatusAt(prior, db, i)
    ensures StatusAt(ss, AfterSend(db, answer), i)
  {
    assert Answers(ss)[i] == Answers(prior)[i];
  }

  /** And appends one that nothing was told about. */
  lemma SendSetsNewStatus(prior: seq<Step>, ss: seq<Step>, db: Db, answer: Answer)
    requires ss == prior + [Sending(answer)] && ss[..|ss| - 1] == prior
    requires |db.attempts| == |db.communications| == |Answers(prior)|
    ensures StatusAt(ss, AfterSend(db, answer), |db.attempts|)
  {
    NothingToldYet(prior, |db.attempts|);
    assert Answers(ss)[|db.attempts|] == answer;
  }

  lemma SendKeepsStatuses(prior: seq<Step>, ss: seq<Step>, db: Db, answer: Answer)
    requires ss == prior + [Sending(answer)] && ss[..|ss| - 1] == prior
    requires |db.attempts| == |db.communications| == |Answers(prior)| && Statuses(prior, db)
    ensures Statuses(ss, AfterSend(db, answer))
  {
    var n := |db.attempts|;
    forall i: nat | i <= n ensures StatusAt(ss, AfterSend(db, answer), i) {
      if i < n {
        assert StatusAt(prior, db, i);
        SendKeepsOldStatus(prior, ss, db, answer, i);
      } else {
        SendSetsNewStatus(prior, ss, db, answer);
      }
    }
  }

  /** The status of an attempt, and of its communication, is the one told by the last effective
      receipt about it, of which only the first recorded one of each provider event counts. */
  lemma {:induction false} LastEffectiveReceiptDecides(ss: seq<Step>)
    ensures Tables(ss, Run(ss)) && Statuses(ss, Run(ss))
  {
    RunHasTables(ss);
    if ss != [] {
      var n := |ss| - 1;
      LastEffectiveReceiptDecides(ss[..n]);
      if ss[n].Sending? {
        assert ss == ss[..n] + [Sending(ss[n].answer)];
        SendKeepsStatuses(ss[..n], ss, Run(ss[..n]), ss[n].answer);
      } else {
        ReceiptKeepsStatuses(ss, Run(ss[..n]));
      }
    }
  }

  /** Every effective receipt leaves one audit row, and no other receipt does; so the audit log
      alone gives back every status that receipts have set. */
  lemma {:induction false} AuditLogReplays(ss: seq<Step>, message: nat)
    ensures |Run(ss).audit| == Effects(ss)
    ensures LastAudit(Run(ss).audit, message) == Told(ss, message)
  {
    if ss != [] {
      var n := |ss| - 1;
      AuditLogReplays(ss[..n], message);
      RunHasTables(ss[..n]);
      if ss[n].Receiving? { ReceiptMoves(ss, Run(ss[..n])); }
      var log := Run(ss).audit;
      assert EffectOfLast(ss).None? ==> log == Run(ss[..n]).audit;
    }
  }

  // ---- Redelivery ----

  predicate Received(ss: seq<Step>, key: Key) {
    ss != [] && (Received(ss[..|ss| - 1], key) || IsAbout(ss[|ss| - 1], key))
  }

  predicate IsAbout(s: Step, key: Key) {
    s.Receiving? && KeyOf(s.receipt) == key
  }

  /** The run without every receipt whose provider event was received before. */
  function FirstOnly(ss: seq<Step>): seq<Step> {
    if ss == [] then []
    else
      var n := |ss| - 1;
      if ss[n].Receiving? && Received(ss[..n], KeyOf(ss[n].receipt)) then FirstOnly(ss[..n])
      else FirstOnly(ss[..n]) + [ss[n]]
  }

  predicate SameNews(r: Receipt, r': Receipt) {
    r.provider == r'.provider && ReferenceOf(r) == ReferenceOf(r') && NewStatus(r) == NewStatus(r')
  }

  predicate SameNewsBefore(ss: seq<Step>, r: Receipt) {
    ss != [] ==> SameNewsBefore(ss[..|ss| - 1], r)
                 && (IsAbout(ss[|ss| - 1], KeyOf(r)) ==> SameNews(ss[|ss| - 1].receipt, r))
  }

  /** A provider that repeats an event repeats its news. */
  predicate Faithful(ss: seq<Step>) {
    ss != [] ==> Faithful(ss[..|ss| - 1])
                 && (ss[|ss| - 1].Receiving? ==> SameNewsBefore(ss[..|ss| - 1], ss[|ss| - 1].receipt))
  }

  lemma StaysManyRows(answers: seq<Answer>, answer: Answer, reference: string)
    requires Lookup(Given(answers), reference).ManyRows?
    ensures Lookup(Given(answers + [answer]), reference).ManyRows?
  {
    var given, given' := Given(answers), Given(answers + [answer]);
    assert given'[..|given|] == given;
  }

  /** If an event was received but never recorded, then every reception of it failed, and the next
      will. */
  lemma {:induction false} ReceivedUnrecordedRaises(ss: seq<Step>, r: Receipt)
    requires Received(ss, KeyOf(r)) && !Recorded(ss, KeyOf(r)) && SameNewsBefore(ss, r)
    ensures Raises(Given(Answers(ss)), r)
  {
    var n := |ss| - 1;
    if !IsAbout(ss[n], KeyOf(r)) {
      ReceivedUnrecordedRaises(ss[..n], r);
      if ss[n].Sending? { StaysManyRows(Answers(ss[..n]), ss[n].answer, ReferenceOf(r)); }
    }
  }

  /** A receipt of an event that was received before, but only by requests that failed, fails too. */
  ghost predicate NoLateRecording(ss: seq<Step>) {
    ss != [] ==> NoLateRecording(ss[..|ss| - 1]) && !RecordsLate(ss)
  }

  predicate RecordsLate(ss: seq<Step>)
    requires ss != []
  {
    var n := |ss| - 1;
    && ss[n].Receiving?
    && Received(ss[..n], KeyOf(ss[n].receipt)) && !Recorded(ss[..n], KeyOf(ss[n].receipt))
    && !Raises(Given(Answers(ss[..n])), ss[n].receipt)
  }

  /** The event that such a receipt records. */
  predicate RecordedLate(ss: seq<Step>, key: Key) {
    ss != [] && (RecordedLate(ss[..|ss| - 1], key) || (RecordsLate(ss) && IsAbout(ss[|ss| - 1], key)))
  }

  lemma {:induction false} DroppingIsFree(ss: seq<Step>)
    requires NoLateRecording(ss)
    ensures Run(FirstOnly(ss)) == Run(ss)
  {
    if ss != [] {
      var n := |ss| - 1;
      DroppingIsFree(ss[..n]);
      if ss[n].Receiving? && Received(ss[..n], KeyOf(ss[n].receipt)) {
        RunHasTables(ss[..n]);
        ReplyCases(Run(ss[..n]), ss[n].receipt);
      } else {
        RunOne(FirstOnly(ss[..n]), ss[n]);
      }
    }
  }

  /** Dropping repetitions drops no send, and makes nothing recorded that was not. */
  lemma {:induction false} FirstOnlyFacts(ss: seq<Step>, key: Key)
    ensures Answers(FirstOnly(ss)) == Answers(ss)
    ensures Recorded(FirstOnly(ss), key) ==> Recorded(ss, key)
  {
    if ss != [] {
      var n := |ss| - 1;
      FirstOnlyFacts(ss[..n], key);
      var kept := FirstOnly(ss[..n]) + [ss[n]];
      assert kept[..|kept| - 1] == FirstOnly(ss[..n]);
    }
  }

  lemma {:induction false} RecordedIsReceived(ss: seq<Step>, key: Key)
    requires Recorded(ss, key)
    ensures Received(ss, key)
  {
    var n := |ss| - 1;
    if Recorded(ss[..n], key) { RecordedIsReceived(ss[..n], key); }
  }

  /** What is recorded late is recorded in the run, and not in the run without repetitions. */
  lemma {:induction false} LateIsNotKept(ss: seq<Step>, key: Key)
    requires RecordedLate(ss, key)
    ensures Recorded(ss, key) && !Recorded(FirstOnly(ss), key)
  {
    var n := |ss| - 1;
    if RecordedLate(ss[..n], key) {
      LateIsNotKept(ss[..n], key);
      RecordedIsReceived(ss[..n], key);
    } else {
      FirstOnlyFacts(ss[..n], key);
    }
    var kept := FirstOnly(ss[..n]) + [ss[n]];
    assert kept[..|kept| - 1] == FirstOnly(ss[..n]);
  }

  lemma {:induction false} SomeKeyIsLate(ss: seq<Step>) returns (key: Key)
    requires !NoLateRecording(ss)
    ensures RecordedLate(ss, key)
  {
    if RecordsLate(ss) {
      key := KeyOf(ss[|ss| - 1].receipt);
    } else {
      key := SomeKeyIsLate(ss[..|ss| - 1]);
    }
  }

  /** Redelivery, exactly, for every run: removing every delivery but the first of each provider
      event changes no table, if and only if no event is recorded late. */
  lemma RedeliveriesAreAbsorbed(ss: seq<Step>)
    ensures Run(FirstOnly(ss)) == Run(ss) <==> NoLateRecording(ss)
  {
    if NoLateRecording(ss) {
      DroppingIsFree(ss);
    } else {
      var key := SomeKeyIsLate(ss);
      LateIsNotKept(ss, key);
      RunHasTables(ss);
      RunHasTables(FirstOnly(ss));
    }
  }

  /** A provider whose repetitions repeat the news records nothing late. */
  lemma {:induction false} FaithfulRecordsNothingLate(ss: seq<Step>)
    requires Faithful(ss)
    ensures NoLateRecording(ss)
  {
    if ss != [] {
      var n := |ss| - 1;
      FaithfulRecordsNothingLate(ss[..n]);
      if RecordsLate(ss) { ReceivedUnrecordedRaises(ss[..n], ss[n].receipt); }
    }
  }

  /** Nor does any provider while no two attempts share a reference: then no request fails. */
  lemma {:induction false} UniqueReferencesRecordAll(ss: seq<Step>)
    requires forall reference :: !Lookup(Given(Answers(ss)), reference).ManyRows?
    ensures NoLateRecording(ss)
    ensures forall key :: Received(ss, key) ==> Recorded(ss, key)
  {
    if ss != [] {
      var n := |ss| - 1;
      forall reference ensures !Lookup(Given(Answers(ss[..n])), reference).ManyRows? {
        assert !Lookup(Given(Answers(ss)), reference).ManyRows?;
        if ss[n].Sending? && Lookup(Given(Answers(ss[..n])), reference).ManyRows? {
          StaysManyRows(Answers(ss[..n]), ss[n].answer, reference);
        }
      }
      UniqueReferencesRecordAll(ss[..n]);
    }
  }

  /** A receipt that fails, followed by one of the same event that does not, is not absorbed. */
  lemma LateRecordingShows(ss: seq<Step>, r: Receipt, r': Receipt)
    requires KeyOf(r) == KeyOf(r') && !Recorded(ss, KeyOf(r))
    requires Raises(Given(Answers(ss)), r) && !Raises(Given(Answers(ss)), r')
    ensures Run(FirstOnly(ss + [Receiving(r)] + [Receiving(r')])) != Run(ss + [Receiving(r)] + [Receiving(r')])
  {
    var once := ss + [Receiving(r)];
    var twice := once + [Receiving(r')];
    assert once[..|ss|] == ss && twice[..|once|] == once;
    assert RecordsLate(twice);
    RedeliveriesAreAbsorbed(twice);
  }

  /** Such a run exists: two attempts share reference "a", the receipt about "a" fails, and under
      the same event id one about "b" follows. */
  lemma LateRecordingHappens()
    ensures var two := [Sending(Accepted("a")), Sending(Accepted("a"))];
            var ss := two + [Receiving(Bounce("a"))] + [Receiving(Bounce("b"))];
            Run(FirstOnly(ss)) != Run(ss)
  {
    var two := [Sending(Accepted("a")), Sending(Accepted("a"))];
    var given := [Some("a"), Some("a")];
    assert two[..1] == [Sending(Accepted("a"))] && two[..1][..0] == [];
    assert Answers(two) == [Accepted("a"), Accepted("a")] && Given(Answers(two)) == given;
    assert given[..1] == [Some("a")] && given[..1][..0] == [];
    assert Lookup(given, "a").ManyRows? && Lookup(given, "b").NoRow?;
    BounceFacts("a");
    BounceFacts("b");
    assert !Recorded(two, KeyOf(Bounce("a")));
    LateRecordingShows(two, Bounce("a"), Bounce("b"));
  }

  lemma BounceFacts(reference: string)
    ensures KeyOf(Bounce(reference)) == Key("resend", "1")
    ensures ReferenceOf(Bounce(reference)) == reference && Bounce(reference).provider == "resend"
  {
  }

  function Bounce(reference: string): Receipt {
    Receipt("resend", Payload(map["id" := "1", "type" := "email.bounced"], map["email_id" := reference]), "", "")
  }

  /** A receipt leaves its event id unrecorded exactly when it fails, and then changes nothing. */
  lemma FailedReceiptIsForgotten(ss: seq<Step>, r: Receipt)
    ensures !Recorded(ss, KeyOf(r)) && Raises(Given(Answers(ss)), r) <==>
            !Recorded(ss + [Receiving(r)], KeyOf(r))
    ensures !Recorded(ss + [Receiving(r)], KeyOf(r)) ==> Run(ss + [Receiving(r)]) == Run(ss)
  {
    assert (ss + [Receiving(r)])[..|ss|] == ss;
    RunHasTables(ss);
    ReplyCases(Run(ss), r);
  }

  // ---- Receipts that come too early ----

  function Without(ss: seq<Step>, key: Key): seq<Step> {
    if ss == [] then []
    else
      var n := |ss| - 1;
      if IsAbout(ss[n], key) then Without(ss[..n], key)
      else Without(ss[..n], key) + [ss[n]]
  }

  /** Equal but for one recorded key. */
  ghost predicate SameButFor(a: Db, b: Db, key: Key) {
    && a.attempts == b.attempts && a.communications == b.communications && a.audit == b.audit
    && key in a.webhooks && forall k :: k != key ==> (k in a.webhooks <==> k in b.webhooks)
  }

  lemma StepKeepsSame(a: Db, b: Db, key: Key, s: Step)
    requires SameButFor(a, b, key)
    ensures SameButFor(After(a, s), if IsAbout(s, key) then b else After(b, s), key)
  {
    if s.Receiving? {
      ReplyCases(a, s.receipt);
      ReplyCases(b, s.receipt);
    }
  }

  lemma NoAttemptNoEffect(ss: seq<Step>, r: Receipt)
    requires !Recorded(ss, KeyOf(r)) && Some(ReferenceOf(r)) !in Given(Answers(ss))
    ensures SameButFor(Run(ss + [Receiving(r)]), Run(ss), KeyOf(r))
  {
    assert (ss + [Receiving(r)])[..|ss|] == ss;
    RunHasTables(ss);
    ReplyCases(Run(ss), r);
  }

  lemma RunOne(ss: seq<Step>, s: Step)
    ensures Run(ss + [s]) == After(Run(ss), s)
  {
    assert (ss + [s])[..|ss|] == ss;
  }

  lemma SplitLast(ss: seq<Step>, us: seq<Step>)
    requires us != []
    ensures ss + us == (ss + us[..|us| - 1]) + [us[|us| - 1]]
  {
  }

  lemma RunSnoc(ss: seq<Step>, us: seq<Step>)
    requires us != []
    ensures Run(ss + us) == After(Run(ss + us[..|us| - 1]), us[|us| - 1])
  {
    SplitLast(ss, us);
    RunOne(ss + us[..|us| - 1], us[|us| - 1]);
  }

  /** A receipt recorded before its attempt is on file is lost for good: attempts, communications
      and audit log end as if it had neither come nor been repeated, whatever follows. */
  lemma {:induction false} EarlyReceiptIsLost(ss: seq<Step>, r: Receipt, us: seq<Step>)
    requires !Recorded(ss, KeyOf(r)) && Some(ReferenceOf(r)) !in Given(Answers(ss))
    ensures SameButFor(Run(ss + [Receiving(r)] + us), Run(ss + Without(us, KeyOf(r))), KeyOf(r))
  {
    if us == [] {
      assert ss + [Receiving(r)] + us == ss + [Receiving(r)] && ss + Without(us, KeyOf(r)) == ss;
      NoAttemptNoEffect(ss, r);
    } else {
      var n := |us| - 1;
      EarlyReceiptIsLost(ss, r, us[..n]);
      RunSnoc(ss + [Receiving(r)], us);
      if !IsAbout(us[n], KeyOf(r)) {
        RunSnoc(ss, Without(us, KeyOf(r)));
        assert Without(us, KeyOf(r))[..|Without(us, KeyOf(r))| - 1] == Without(us[..n], KeyOf(r));
      }
      StepKeepsSame(Run(ss + [Receiving(r)] + us[..n]), Run(ss + Without(us[..n], KeyOf(r))), KeyOf(r), us[n]);
    }
  }

  // ---- Event ids of Vonage receipts ----

  predicate NamesMessageAndStatus(r: Receipt) {
    && IsVonage(r.provider)
    && Get(r.payload.fields, "message_uuid", "") != "" && Get(r.payload.fields, "status", "") != ""
    && ':' !in Get(r.payload.fields, "message_uuid", "")
  }

  lemma ColonSplits(a: string, b: string, a': string, b': string)
    requires ':' !in a && ':' !in a' && a + ":" + b == a' + ":" + b'
    ensures a == a' && b == b'
  {
    var s := a + ":" + b;
    assert s[|a|] == ':' && s[|a'|] == ':';
    assert forall i :: 0 <= i < |a| ==> s[i] == a[i];
    assert forall i :: 0 <= i < |a'| ==> s[i] == a'[i];
    assert |a| == |a'|;
    assert a == s[..|a|] == a' && b == s[|a| + 1..] == b';
  }

  /** Receipts about the same message with different statuses are different events, and those
      with one event id carry the same news. */
  lemma VonageIdsAreFaithful(r: Receipt, r': Receipt)
    requires NamesMessageAndStatus(r) && NamesMessageAndStatus(r')
    ensures KeyOf(r) == KeyOf(r') <==>
            && r.provider == r'.provider && ReferenceOf(r) == ReferenceOf(r') && EventType(r) == EventType(r')
    ensures KeyOf(r) == KeyOf(r') ==> SameNews(r, r')
  {
    if KeyOf(r) == KeyOf(r') {
      ColonSplits(ReferenceOf(r), EventType(r), ReferenceOf(r'), EventType(r'));
    }
  }
}

/**
 Mailbox sync: each run lists messages, records and ingests the new ones and moves the
 cursor. When a run raises, its worker commits what has been written so far.
 */
module MailSync {
  import opened Wrappers
  import opened Sequences

  datatype Provider = Gmail | Outlook

  /** The unique constraint uq_email_message. */
  datatype Key = Key(tenant: nat, provider: Provider, messageId: string)

  /** What happens to one attachment: filtered out, ingested, ignored by the ingest filter, or failed (and logged). */
  datatype Attachment = Filtered | Ingested | Ignored | Broken

  /** The reply to fetching a message: its attachments, a 404, another error, or a message whose
      metadata cannot be read. */
  datatype Fetch = Content(attachments: seq<Attachment>) | Gone | Error | Unreadable

  /** A listed message; an id may be missing (""). */
  datatype Listed = Listed(id: string, hasAttachments: bool, fetch: Fetch)

  datatype Counters = Counters(scanned: nat, found: nat, created: nat, skipped: nat)

  const NO_COUNTS: Counters := Counters(0, 0, 0, 0)

  /** Message rows with their processed flag, cursor positions by config, and the log of every
      processing (which no code keeps). */
  datatype Db = Db(messages: map<Key, bool>, cursors: map<nat, nat>, log: seq<Key>)

  /** Messages a run does not look at: no id, or for Outlook no attachments. */
  predicate Relevant(provider: Provider, m: Listed) {
    m.id != "" && (provider.Outlook? ==> m.hasAttachments)
  }

  function Number(attachments: seq<Attachment>, kind: Attachment): nat {
    if attachments == [] then 0
    else Number(attachments[..|attachments| - 1], kind) + if attachments[|attachments| - 1] == kind then 1 else 0
  }

  function Counted(c: Counters, attachments: seq<Attachment>): Counters {
    var (made, ignored, broken) :=
      (Number(attachments, Ingested), Number(attachments, Ignored), Number(attachments, Broken));
    Counters(c.scanned + 1, c.found + made + ignored + broken, c.created + made, c.skipped + ignored)
  }

  /** How far a message loop has come: what it has written, what it has counted, whether it has raised. */
  datatype Progress = Progress(db: Db, counts: Counters, raised: bool)

  /** One iteration of the message loop. Gmail writes the row after the fetch and tolerates a vanished
      message; Outlook writes the row first, so a failing fetch leaves it behind unprocessed. */
  function ProcessOne(p: Progress, tenant: nat, provider: Provider, m: Listed): Progress {
    var key := Key(tenant, provider, m.id);
    if p.raised || !Relevant(provider, m) then p
    else if key in p.db.messages then p.(counts := p.counts.(skipped := p.counts.skipped + 1))
    else match m.fetch
      case Unreadable => p.(raised := true)
      case Content(attachments) =>
        Progress(p.db.(messages := p.db.messages[key := true], log := p.db.log + [key]), Counted(p.counts, attachments),
                 false)
      case _ =>
        if provider.Gmail? then p.(raised := m.fetch.Error?)
        else Progress(p.db.(messages := p.db.messages[key := false]), p.counts.(scanned := p.counts.scanned + 1), true)
  }

  function ProcessAll(db: Db, tenant: nat, provider: Provider, listing: seq<Listed>): Progress {
    if listing == [] then Progress(db, NO_COUNTS, false)
    else ProcessOne(ProcessAll(db, tenant, provider, listing[..|listing| - 1]), tenant, provider,
                    listing[|listing| - 1])
  }

  /** One run of sync_gmail, sync_gmail_historical or sync_outlook by its worker: the provider's answer
      to the listing call (None if it raises), the new cursor, and whether the process or the database
      fails before the commit. */
  datatype Run = Run(tenant: nat, config: nat, provider: Provider, listing: Option<seq<Listed>>, cursor: Option<nat>,
                     dies: bool)

  predicate Finished(db: Db, run: Run) {
    !run.dies && run.listing.Some? && !ProcessAll(db, run.tenant, run.provider, run.listing.value).raised
  }

  /** A run that raises keeps its rows, because the worker's handler commits the session to record the
      failed job; only the cursor does not move. Nothing is kept of a run that dies. */
  function AfterRun(db: Db, run: Run): Db {
    if run.dies || run.listing.None? then db
    else
      var p := ProcessAll(db, run.tenant, run.provider, run.listing.value);
      if p.raised || run.cursor.None? then p.db else p.db.(cursors := p.db.cursors[run.config := run.cursor.value])
  }

  // ---------------------------------------------------------------------------------------
  // The repository and the service, as they update their rows
  // ---------------------------------------------------------------------------------------

  class EmailSync {
    var messages: map<Key, bool>
    var cursors: map<nat, nat>
    ghost var log: seq<Key>

    constructor ()
      ensures Abs() == Db(map[], map[], [])
    {
      messages, cursors, log := map[], map[], [];
    }

    ghost function Abs(): Db
      reads this
    {
      Db(messages, cursors, log)
    }

    /** INSERT .. ON CONFLICT DO NOTHING. */
    method UpsertMessage(key: Key)
      modifies this`messages
      ensures messages == if key in old(messages) then old(messages) else old(messages)[key := false]
    {
      if key !in messages {
        messages := messages[key := false];
      }
    }

    method MarkProcessed(key: Key)
      requires key in messages
      modifies this`messages, this`log
      ensures messages == old(messages)[key := true] && log == old(log) + [key]
    {
      messages, log := messages[key := true], log + [key];
    }

    /** The attachment loop: a failing attachment is logged and skipped. */
    method IngestAttachments(attachments: seq<Attachment>, before: Counters) returns (c: Counters)
      ensures c == Counted(before, attachments).(scanned := before.scanned)
    {
      c := before;
      var n := 0;
      while n < |attachments|
        invariant 0 <= n <= |attachments|
        invariant c == Counted(before, attachments[..n]).(scanned := before.scanned)
      {
        assert attachments[..n + 1][..n] == attachments[..n];
        match attachments[n] {
          case Filtered =>
          case Ingested => c := c.(found := c.found + 1, created := c.created + 1);
          case Ignored => c := c.(found := c.found + 1, skipped := c.skipped + 1);
          case Broken => c := c.(found := c.found + 1);
        }
        n := n + 1;
      }
      assert attachments[..n] == attachments;
    }

    method SyncMessage(tenant: nat, provider: Provider, m: Listed, before: Counters) returns (raised: bool, c: Counters)
      modifies this`messages, this`log
      ensures Progress(Abs(), c, raised) == ProcessOne(Progress(old(Abs()), before, false), tenant, provider, m)
    {
      c := before;
      var key := Key(tenant, provider, m.id);
      if m.id == "" || (provider == Outlook && !m.hasAttachments) {
        return false, c;
      }
      if key in messages {
        return false, c.(skipped := c.skipped + 1);
      }
      if provider == Gmail {
        if m.fetch.Gone? {
          return false, c;
        }
        if m.fetch.Error? || m.fetch.Unreadable? {
          return true, c;
        }
        UpsertMessage(key);
        c := c.(scanned := c.scanned + 1);
      } else {
        if m.fetch.Unreadable? {
          return true, c;
        }
        UpsertMessage(key);
        c := c.(scanned := c.scanned + 1);
        if !m.fetch.Content? {
          return true, c;
        }
      }
      c := IngestAttachments(m.fetch.attachments, c);
      MarkProcessed(key);
      assert messages == old(messages)[key := true];
      raised := false;
    }

    method UpdateCursor(config: nat, cursor: Option<nat>)
      modifies this`cursors
      ensures cursors == if cursor.None? then old(cursors) else old(cursors)[config := cursor.value]
    {
      if cursor.Some? {
        cursors := cursors[config := cursor.value];
      }
    }

    /** sync_gmail, sync_gmail_historical or sync_outlook; None when it raises. */
    method Sync(run: Run) returns (r: Option<Counters>)
      requires !run.dies
      modifies this
      ensures Abs() == AfterRun(old(Abs()), run)
      ensures r.Some? <==> Finished(old(Abs()), run)
      ensures r.Some? ==> r.value == ProcessAll(old(Abs()), run.tenant, run.provider, run.listing.value).counts
    {
      ghost var begun := Abs();
      if run.listing.None? {
        return None;
      }
      var listing, c, n := run.listing.value, NO_COUNTS, 0;
      while n < |listing|
        invariant 0 <= n <= |listing|
        invariant ProcessAll(begun, run.tenant, run.provider, listing[..n]) == Progress(Abs(), c, false)
      {
        assert listing[..n + 1][..n] == listing[..n];
        var raised;
        raised, c := SyncMessage(run.tenant, run.provider, listing[n], c);
        n := n + 1;
        if raised {
          RaisingStops(begun, run.tenant, run.provider, listing, n);
          return None;
        }
      }
      assert listing[..n] == listing;
      UpdateCursor(run.config, run.cursor);
      return Some(c);
    }

    /** The worker around a run: it commits what a run that raised has written, to record the failed job. */
    method RunJob(run: Run) returns (r: Option<Counters>)
      modifies this
      ensures Abs() == AfterRun(old(Abs()), run)
      ensures r.Some? <==> Finished(old(Abs()), run)
    {
      var begunMessages, begunCursors := messages, cursors;
      ghost var begunLog := log;
      r := Sync(run.(dies := false));
      if run.dies {
        messages, cursors, log := begunMessages, begunCursors, begunLog;
        r := None;
      }
    }
  }

  /** Once a loop has raised, the rest of the listing is not looked at. */
  lemma {:induction false} RaisingStops(db: Db, tenant: nat, provider: Provider, listing: seq<Listed>, n: nat)
    requires n <= |listing| && ProcessAll(db, tenant, provider, listing[..n]).raised
    ensures ProcessAll(db, tenant, provider, listing) == ProcessAll(db, tenant, provider, listing[..n])
    decreases |listing|
  {
    if n < |listing| {
      assert listing[..|listing| - 1][..n] == listing[..n];
      RaisingStops(db, tenant, provider, listing[..|listing| - 1], n);
    } else {
      assert listing[..n] == listing;
    }
  }

  // ---------------------------------------------------------------------------------------
  // Each message is processed at most once
  // ---------------------------------------------------------------------------------------

  predicate Processed(db: Db, key: Key) {
    key in db.messages && db.messages[key]
  }

  /** A row that was written but never marked as processed. */
  predicate Stuck(db: Db, key: Key) {
    key in db.messages && !db.messages[key]
  }

  /** No message is processed twice, and exactly the processed ones are marked. */
  ghost predicate Valid(db: Db) {
    && Distinct(db.log)
    && (forall k :: k in db.log <==> Processed(db, k))
  }

  /** Rows get added and never change. */
  ghost predicate Extends(a: Db, b: Db) {
    a.log <= b.log && forall k :: k in a.messages ==> k in b.messages && b.messages[k] == a.messages[k]
  }

  lemma {:induction false} ProcessAllKeepsValid(db: Db, tenant: nat, provider: Provider, listing: seq<Listed>)
    requires Valid(db)
    ensures var done := ProcessAll(db, tenant, provider, listing).db;
      Valid(done) && Extends(db, done) && done.cursors == db.cursors
    decreases |listing|
  {
    if listing != [] {
      ProcessAllKeepsValid(db, tenant, provider, listing[..|listing| - 1]);
      ProcessOneKeepsValid(ProcessAll(db, tenant, provider, listing[..|listing| - 1]), tenant, provider,
                           listing[|listing| - 1]);
    }
  }

  lemma ProcessOneKeepsValid(p: Progress, tenant: nat, provider: Provider, m: Listed)
    requires Valid(p.db)
    ensures var done := ProcessOne(p, tenant, provider, m).db;
      Valid(done) && Extends(p.db, done) && done.cursors == p.db.cursors
  {
    var key := Key(tenant, provider, m.id);
    if key !in p.db.messages {
      assert key !in p.db.log;
    }
  }

  lemma RunKeepsValid(db: Db, run: Run)
    requires Valid(db)
    ensures Valid(AfterRun(db, run)) && Extends(db, AfterRun(db, run))
  {
    if run.listing.Some? {
      ProcessAllKeepsValid(db, run.tenant, run.provider, run.listing.value);
    }
  }

  function AfterRuns(runs: seq<Run>): Db {
    if runs == [] then Db(map[], map[], []) else AfterRun(AfterRuns(runs[..|runs| - 1]), runs[|runs| - 1])
  }

  /** Over any sequence of runs, finished, raising or dying at any point, no message is processed twice,
      and a message is marked exactly when it has been processed. */
  lemma {:induction false} ProcessedAtMostOnce(runs: seq<Run>)
    ensures Valid(AfterRuns(runs))
    decreases |runs|
  {
    if runs != [] {
      ProcessedAtMostOnce(runs[..|runs| - 1]);
      RunKeepsValid(AfterRuns(runs[..|runs| - 1]), runs[|runs| - 1]);
    }
  }

  /** A row never changes again: above all, an unprocessed one is never processed by a later run. */
  lemma {:induction false} RowsNeverChange(runs: seq<Run>, j: nat, key: Key)
    requires j <= |runs| && key in AfterRuns(runs[..j]).messages
    ensures key in AfterRuns(runs).messages && AfterRuns(runs).messages[key] == AfterRuns(runs[..j]).messages[key]
    decreases |runs|
  {
    if j == |runs| {
      assert runs[..j] == runs;
    } else {
      var n := |runs| - 1;
      assert runs[..n][..j] == runs[..j];
      RowsNeverChange(runs[..n], j, key);
      ProcessedAtMostOnce(runs[..n]);
      RunKeepsValid(AfterRuns(runs[..n]), runs[n]);
    }
  }

  ghost predicate GmailProcessed(db: Db) {
    forall k :: k in db.messages && k.provider.Gmail? ==> db.messages[k]
  }

  lemma {:induction false} ProcessAllKeepsGmail(db: Db, tenant: nat, provider: Provider, listing: seq<Listed>)
    requires GmailProcessed(db)
    ensures GmailProcessed(ProcessAll(db, tenant, provider, listing).db)
    decreases |listing|
  {
    if listing != [] {
      ProcessAllKeepsGmail(db, tenant, provider, listing[..|listing| - 1]);
    }
  }

  /** A Gmail message has a row exactly when it has been processed, whatever runs have failed. */
  lemma {:induction false} GmailRowsAreProcessed(runs: seq<Run>)
    ensures GmailProcessed(AfterRuns(runs))
    decreases |runs|
  {
    if runs != [] {
      var n := |runs| - 1;
      GmailRowsAreProcessed(runs[..n]);
      RunKeepsGmail(AfterRuns(runs[..n]), runs[n]);
    }
  }

  lemma RunKeepsGmail(db: Db, run: Run)
    requires GmailProcessed(db)
    ensures GmailProcessed(AfterRun(db, run))
  {
    if run.listing.Some? {
      ProcessAllKeepsGmail(db, run.tenant, run.provider, run.listing.value);
    }
  }

  // ---------------------------------------------------------------------------------------
  // Cursors and counters
  // ---------------------------------------------------------------------------------------

  lemma {:induction false} LoopKeepsCursors(db: Db, tenant: nat, provider: Provider, listing: seq<Listed>)
    ensures ProcessAll(db, tenant, provider, listing).db.cursors == db.cursors
    decreases |listing|
  {
    if listing != [] {
      LoopKeepsCursors(db, tenant, provider, listing[..|listing| - 1]);
    }
  }

  /** A cursor moves only when a run of its config finishes with a new one, for Gmail and Outlook alike; a
      run that raises or dies leaves every cursor where it was. */
  lemma RunMovesCursorIff(db: Db, run: Run)
    ensures AfterRun(db, run).cursors ==
      if Finished(db, run) && run.cursor.Some? then db.cursors[run.config := run.cursor.value] else db.cursors
  {
    if run.listing.Some? {
      LoopKeepsCursors(db, run.tenant, run.provider, run.listing.value);
    }
  }

  /** The j-th run finishes and hands its config a new cursor. */
  predicate MovesCursor(runs: seq<Run>, j: int, config: nat) {
    && 0 <= j < |runs| && runs[j].config == config && runs[j].cursor.Some?
    && Finished(AfterRuns(runs[..j]), runs[j])
  }

  /** The last run that moved a config's cursor. */
  function LastMove(runs: seq<Run>, config: nat): Option<nat> {
    if runs == [] then None
    else if MovesCursor(runs, |runs| - 1, config) then Some(|runs| - 1)
    else LastMove(runs[..|runs| - 1], config)
  }

  lemma {:induction false} LastMoveIsLast(runs: seq<Run>, config: nat)
    ensures var m := LastMove(runs, config);
      if m.None? then forall j :: !MovesCursor(runs, j, config)
      else MovesCursor(runs, m.value, config) && forall j :: m.value < j ==> !MovesCursor(runs, j, config)
    decreases |runs|
  {
    if runs != [] {
      var n := |runs| - 1;
      LastMoveIsLast(runs[..n], config);
      forall j | 0 <= j < n
        ensures MovesCursor(runs, j, config) <==> MovesCursor(runs[..n], j, config)
      {
        assert runs[..n][..j] == runs[..j];
      }
    }
  }

  /** Over any runs a config's cursor is the one handed over by its last run that finished with one, and
      it has none if there is no such run. */
  lemma {:induction false} CursorIsOfTheLastFinished(runs: seq<Run>, config: nat)
    ensures var db, m := AfterRuns(runs), LastMove(runs, config);
      && (config in db.cursors <==> m.Some?)
      && (m.Some? ==> m.value < |runs| && runs[m.value].cursor == Some(db.cursors[config]))
    decreases |runs|
  {
    if runs != [] {
      var n := |runs| - 1;
      CursorIsOfTheLastFinished(runs[..n], config);
      RunMovesCursorIff(AfterRuns(runs[..n]), runs[n]);
    }
  }

  lemma {:induction false} NumberOneMore(attachments: seq<Attachment>, a: Attachment, kind: Attachment)
    ensures Number(attachments + [a], kind) == Number(attachments, kind) + if a == kind then 1 else 0
  {
    assert (attachments + [a])[..|attachments|] == attachments;
  }

  /** A processed message is scanned once; each attachment that is not filtered out is found, each ingested
      one is a document, each ignored one is skipped, and a failed one is found only. */
  lemma CountersPerAttachment(c: Counters, attachments: seq<Attachment>, a: Attachment)
    ensures Counted(c, []) == c.(scanned := c.scanned + 1)
    ensures var before, after := Counted(c, attachments), Counted(c, attachments + [a]);
      && after.scanned == before.scanned
      && after.found == before.found + (if a == Filtered then 0 else 1)
      && after.created == before.created + (if a == Ingested then 1 else 0)
      && after.skipped == before.skipped + (if a == Ignored then 1 else 0)
  {
    NumberOneMore(attachments, a, Ingested);
    NumberOneMore(attachments, a, Ignored);
    NumberOneMore(attachments, a, Broken);
  }

  /** What the loop does with one message, case by case. */
  lemma MessageCases(p: Progress, tenant: nat, provider: Provider, m: Listed)
    requires !p.raised
    ensures var key, q := Key(tenant, provider, m.id), ProcessOne(p, tenant, provider, m);
      var looked := m.id != "" && (provider == Outlook ==> m.hasAttachments) && key !in p.db.messages;
      && (!looked ==> q.db == p.db && !q.raised)
      && (m.id == "" || (provider == Outlook && !m.hasAttachments) ==> q.counts == p.counts)
      && (m.id != "" && (provider == Outlook ==> m.hasAttachments) && key in p.db.messages ==>
            q.counts == p.counts.(skipped := p.counts.skipped + 1))
      && (looked && m.fetch.Content? ==> q.counts == Counted(p.counts, m.fetch.attachments))
      && (looked ==>
            (q.raised <==> m.fetch == Error || m.fetch == Unreadable || (m.fetch == Gone && provider == Outlook)))
      && (looked ==> (Processed(q.db, key) <==> m.fetch.Content?))
      && (looked ==> (Stuck(q.db, key) <==> provider == Outlook && (m.fetch == Error || m.fetch == Gone)))
      && (forall k :: k != key ==> (k in q.db.messages <==> k in p.db.messages))
      && (q.db.log != p.db.log <==> looked && m.fetch.Content?)
  {
  }

  // ---------------------------------------------------------------------------------------
  // What a finished run leaves out
  // ---------------------------------------------------------------------------------------

  /** In a run that does not raise, a relevant listed message has a row at the end, unless it is a
      Gmail message that has vanished; and every new row is a processed one. */
  lemma {:induction false} FinishedRunRows(db: Db, tenant: nat, provider: Provider, listing: seq<Listed>)
    requires !ProcessAll(db, tenant, provider, listing).raised
    ensures var done := ProcessAll(db, tenant, provider, listing).db;
      && (forall m :: m in listing && Relevant(provider, m) && (provider.Outlook? || !m.fetch.Gone?) ==>
            Key(tenant, provider, m.id) in done.messages)
      && (forall k :: k in done.messages ==> k in db.messages || done.messages[k])
      && (forall k :: k in db.messages ==> k in done.messages && done.messages[k] == db.messages[k])
    decreases |listing|
  {
    if listing != [] {
      var n := |listing| - 1;
      FinishedRunRows(db, tenant, provider, listing[..n]);
      assert forall m :: m in listing <==> m in listing[..n] || m == listing[n];
    }
  }

  /** After a finished run a message it listed, and could fetch, has a processed row if and only if the
      table held no unprocessed row for it at the start. */
  lemma FinishedRunProcessesIff(db: Db, run: Run, m: Listed)
    requires Finished(db, run) && m in run.listing.value
    requires Relevant(run.provider, m) && (run.provider.Outlook? || !m.fetch.Gone?)
    ensures var key := Key(run.tenant, run.provider, m.id);
      Processed(AfterRun(db, run), key) <==> !Stuck(db, key)
  {
    FinishedRunRows(db, run.tenant, run.provider, run.listing.value);
  }

  /** The i-th listed message of an Outlook run stops the loop between writing its row and marking it. */
  predicate Interrupts(db: Db, tenant: nat, provider: Provider, listing: seq<Listed>, i: nat, key: Key) {
    && i < |listing| && provider.Outlook? && Relevant(provider, listing[i])
    && key == Key(tenant, provider, listing[i].id) && (listing[i].fetch.Gone? || listing[i].fetch.Error?)
    && var before := ProcessAll(db, tenant, provider, listing[..i]); !before.raised && key !in before.db.messages
  }

  lemma {:induction false} StuckAfterLoopIff(db: Db, tenant: nat, provider: Provider, listing: seq<Listed>, key: Key)
    ensures Stuck(ProcessAll(db, tenant, provider, listing).db, key)
      <==> Stuck(db, key) || exists i: nat :: Interrupts(db, tenant, provider, listing, i, key)
    decreases |listing|
  {
    if listing != [] {
      var n := |listing| - 1;
      StuckAfterLoopIff(db, tenant, provider, listing[..n], key);
      forall i: nat | i < n
        ensures Interrupts(db, tenant, provider, listing, i, key)
          <==> Interrupts(db, tenant, provider, listing[..n], i, key)
      {
        assert listing[..n][..i] == listing[..i];
      }
      if i: nat :| i < n && Interrupts(db, tenant, provider, listing, i, key) {
        assert Interrupts(db, tenant, provider, listing[..n], i, key);
      }
      assert Stuck(ProcessAll(db, tenant, provider, listing).db, key) <==>
        Stuck(ProcessAll(db, tenant, provider, listing[..n]).db, key)
          || Interrupts(db, tenant, provider, listing, n, key);
    }
  }

  ghost predicate InterruptedAt(db: Db, run: Run, key: Key) {
    && !run.dies && run.listing.Some?
    && exists i: nat :: Interrupts(db, run.tenant, run.provider, run.listing.value, i, key)
  }

  /** The j-th of a sequence of runs is stopped by the message's fetch. */
  ghost predicate Interrupted(runs: seq<Run>, j: int, key: Key) {
    0 <= j < |runs| && InterruptedAt(AfterRuns(runs[..j]), runs[j], key)
  }

  /** A message has an unprocessed row if and only if some run was stopped by its fetch. */
  lemma {:induction false} StuckIff(runs: seq<Run>, key: Key)
    ensures Stuck(AfterRuns(runs), key) <==> exists j :: Interrupted(runs, j, key)
    decreases |runs|
  {
    if runs != [] {
      var n := |runs| - 1;
      StuckIff(runs[..n], key);
      StuckAfterRunIff(AfterRuns(runs[..n]), runs[n], key);
      forall j | 0 <= j < n
        ensures Interrupted(runs, j, key) <==> Interrupted(runs[..n], j, key)
      {
        assert runs[..n][..j] == runs[..j];
      }
      if j :| 0 <= j < n && Interrupted(runs[..n], j, key) {
        assert Interrupted(runs, j, key);
      }
      assert Interrupted(runs, n, key) <==> InterruptedAt(AfterRuns(runs[..n]), runs[n], key);
    }
  }

  lemma StuckAfterRunIff(db: Db, run: Run, key: Key)
    ensures Stuck(AfterRun(db, run), key) <==> Stuck(db, key) || InterruptedAt(db, run, key)
  {
    if !run.dies && run.listing.Some? {
      StuckAfterLoopIff(db, run.tenant, run.provider, run.listing.value, key);
    }
  }

  /** Whenever a run finishes and moves its cursor, a message it listed, and could fetch, has a processed
      row if and only if no earlier run was stopped by that message's fetch. */
  lemma {:induction false} ListedIsProcessedIff(runs: seq<Run>, run: Run, m: Listed)
    requires Finished(AfterRuns(runs), run) && m in run.listing.value
    requires Relevant(run.provider, m) && (run.provider.Outlook? || !m.fetch.Gone?)
    ensures var db, key := AfterRun(AfterRuns(runs), run), Key(run.tenant, run.provider, m.id);
      && (Processed(db, key) <==> forall j :: !Interrupted(runs, j, key))
      && (run.cursor.Some? ==> run.config in db.cursors && db.cursors[run.config] == run.cursor.value)
  {
    FinishedRunProcessesIff(AfterRuns(runs), run, m);
    StuckIff(runs, Key(run.tenant, run.provider, m.id));
  }

  const LOST: Key := Key(0, Outlook, "x")

  /** An Outlook run fails to fetch x; the next one lists x, could fetch it, and moves its cursor past it. */
  lemma OutlookMessageIsLost()
    ensures var first := Run(0, 0, Outlook, Some([Listed("x", true, Error)]), Some(1), false);
      var second := Run(0, 0, Outlook, Some([Listed("x", true, Content([Ingested]))]), Some(2), false);
      var db := AfterRuns([first, second]);
      && Finished(AfterRuns([first]), second) && db.cursors == map[0 := 2]
      && Stuck(db, LOST) && db.log == []
  {
    var first := Run(0, 0, Outlook, Some([Listed("x", true, Error)]), Some(1), false);
    var second := Run(0, 0, Outlook, Some([Listed("x", true, Content([Ingested]))]), Some(2), false);
    assert [first][..0] == [] && [first, second][..1] == [first];
    assert [Listed("x", true, Error)][..0] == [] && [Listed("x", true, Content([Ingested]))][..0] == [];
    assert AfterRuns([first]) == Db(map[LOST := false], map[], []);
  }

  // ---------------------------------------------------------------------------------------
  // One Gmail mailbox and its cursor
  // ---------------------------------------------------------------------------------------

  /** A message as it arrives; `matches` says whether the full scan's query finds it (an attachment and
      one of the keywords). */
  datatype Mail = Mail(id: string, matches: bool, day: int)

  /** Messages in arrival order, positions in it as history ids; the ids deleted from the mailbox;
      `base` is the position of the last full scan. */
  datatype Mailbox = Mailbox(db: Db, arrivals: seq<Mail>, removed: set<string>, base: nat)

  /** New mail; a deletion; an incremental run from the stored cursor; a full scan, for which the
      provider answers the query with `hits`. `reply` answers the fetch of each message still there. */
  datatype Event =
    | Arrive(mail: Mail)
    | Remove(id: string)
    | Incremental(reply: map<string, Fetch>, dies: bool)
    | FullScan(after: Option<int>, limit: nat, hits: seq<string>, reply: map<string, Fetch>, dies: bool)

  const TENANT: nat := 0
  const CONFIG: nat := 0

  /** max_results of an ordinary full scan; a page holds at most 100. */
  const SCAN_LIMIT: nat := 500
  const PAGE: nat := 100

  /** The hits within the limit. */
  function Taken(hits: seq<string>, limit: nat): seq<string> {
    if |hits| <= limit then hits else hits[..limit]
  }

  /** The paging loop of _full_scan_messages. `fill(n)` is how many hits the provider puts on the page
      that starts after n hits, at most as many as it is asked for and at least one while there are any. */
  method ScanMessages(hits: seq<string>, limit: nat, fill: nat -> nat) returns (messages: seq<string>)
    requires forall n :: fill(n) >= 1
    ensures messages == Taken(hits, limit)
  {
    messages := [];
    while |messages| < limit
      invariant |messages| <= limit && messages <= hits
      decreases limit - |messages|
    {
      var asked := if PAGE < limit - |messages| then PAGE else limit - |messages|;
      var size := if fill(|messages|) < asked then fill(|messages|) else asked;
      var end := if |messages| + size < |hits| then |messages| + size else |hits|;
      messages := hits[..end];
      if end == |hits| {
        return;
      }
    }
  }

  function KeyFor(id: string): Key {
    Key(TENANT, Gmail, id)
  }

  predicate Matches(mail: Mail, after: Option<int>) {
    mail.matches && (after.Some? ==> after.value <= mail.day)
  }

  /** The query finds a message with this id that is still in the mailbox. */
  predicate Found(b: Mailbox, after: Option<int>, id: string) {
    id !in b.removed && exists p :: 0 <= p < |b.arrivals| && b.arrivals[p].id == id && Matches(b.arrivals[p], after)
  }

  function FetchOf(b: Mailbox, id: string, reply: map<string, Fetch>): Fetch {
    if id in b.removed then Gone else if id in reply && !reply[id].Gone? then reply[id] else Error
  }

  function ListingOf(b: Mailbox, ids: seq<string>, reply: map<string, Fetch>): seq<Listed> {
    seq(|ids|, i requires 0 <= i < |ids| => Listed(ids[i], true, FetchOf(b, ids[i], reply)))
  }

  predicate IsRun(e: Event) {
    e.Incremental? || e.FullScan?
  }

  /** An incremental run needs a cursor; the answer to a query is what the query finds. */
  ghost predicate Possible(b: Mailbox, e: Event) {
    && (e.Incremental? ==> CONFIG in b.db.cursors && b.db.cursors[CONFIG] <= |b.arrivals|)
    && (e.FullScan? ==> forall id :: id in e.hits <==> Found(b, e.after, id))
  }

  function ArrivedIds(b: Mailbox, from: nat): seq<string>
    requires from <= |b.arrivals|
  {
    seq(|b.arrivals| - from, i requires 0 <= i < |b.arrivals| - from => b.arrivals[from + i].id)
  }

  ghost function RunOf(b: Mailbox, e: Event): Run
    requires IsRun(e) && Possible(b, e)
  {
    var ids := if e.FullScan? then Taken(e.hits, e.limit) else ArrivedIds(b, b.db.cursors[CONFIG]);
    Run(TENANT, CONFIG, Gmail, Some(ListingOf(b, ids, e.reply)), Some(|b.arrivals|), e.dies)
  }

  ghost function Happens(b: Mailbox, e: Event): Mailbox {
    if e.Arrive? then b.(arrivals := b.arrivals + [e.mail])
    else if e.Remove? then b.(removed := b.removed + {e.id})
    else if !Possible(b, e) then b
    else b.(db := AfterRun(b.db, RunOf(b, e)),
            base := if e.FullScan? && Finished(b.db, RunOf(b, e)) then |b.arrivals| else b.base)
  }

  ghost function History(events: seq<Event>): Mailbox {
    if events == [] then Mailbox(Db(map[], map[], []), [], {}, 0)
    else Happens(History(events[..|events| - 1]), events[|events| - 1])
  }

  ghost predicate Accounted(b: Mailbox, id: string) {
    id == "" || id in b.removed || Processed(b.db, KeyFor(id))
  }

  /** Everything that arrived since the last full scan and lies behind the cursor is accounted for. */
  ghost predicate Covered(b: Mailbox) {
    && Valid(b.db) && GmailProcessed(b.db)
    && (CONFIG in b.db.cursors ==>
          b.base <= b.db.cursors[CONFIG] <= |b.arrivals|
          && forall p :: b.base <= p < b.db.cursors[CONFIG] ==> Accounted(b, b.arrivals[p].id))
  }

  lemma RunKeepsTables(b: Mailbox, e: Event)
    requires Covered(b) && IsRun(e) && Possible(b, e)
    ensures var after := Happens(b, e);
      && Valid(after.db) && GmailProcessed(after.db) && Extends(b.db, after.db)
      && after.arrivals == b.arrivals && after.removed == b.removed
      && after.db.cursors ==
           (if Finished(b.db, RunOf(b, e)) then b.db.cursors[CONFIG := |b.arrivals|] else b.db.cursors)
  {
    RunKeepsValid(b.db, RunOf(b, e));
    ProcessAllKeepsValid(b.db, TENANT, Gmail, RunOf(b, e).listing.value);
    RunKeepsGmail(b.db, RunOf(b, e));
  }

  /** A finished run accounts for every id it listed. */
  lemma ListedIsAccounted(b: Mailbox, e: Event, i: nat)
    requires Covered(b) && IsRun(e) && Possible(b, e) && Finished(b.db, RunOf(b, e))
    requires i < |RunOf(b, e).listing.value|
    ensures Accounted(Happens(b, e), RunOf(b, e).listing.value[i].id)
  {
    var run := RunOf(b, e);
    var m := run.listing.value[i];
    assert m in run.listing.value;
    RunKeepsTables(b, e);
    if m.id != "" && m.id !in b.removed {
      FinishedRunProcessesIff(b.db, run, m);
      assert !Stuck(b.db, KeyFor(m.id));
    }
  }

  lemma RunKeepsCovered(b: Mailbox, e: Event)
    requires Covered(b) && IsRun(e) && Possible(b, e)
    ensures Covered(Happens(b, e))
  {
    var after := Happens(b, e);
    RunKeepsTables(b, e);
    if CONFIG in after.db.cursors {
      forall p | after.base <= p < after.db.cursors[CONFIG]
        ensures Accounted(after, b.arrivals[p].id)
      {
        if CONFIG in b.db.cursors && p < b.db.cursors[CONFIG] {
          StaysAccounted(b, e, b.arrivals[p].id);
        } else {
          NewIsAccounted(b, e, p);
        }
      }
    }
  }

  lemma StaysAccounted(b: Mailbox, e: Event, id: string)
    requires Covered(b) && IsRun(e) && Possible(b, e) && Accounted(b, id)
    ensures Accounted(Happens(b, e), id)
  {
    RunKeepsTables(b, e);
  }

  /** A finished incremental run accounts for everything from the old cursor on. */
  lemma NewIsAccounted(b: Mailbox, e: Event, p: nat)
    requires Covered(b) && e.Incremental? && Possible(b, e) && Finished(b.db, RunOf(b, e))
    requires b.db.cursors[CONFIG] <= p < |b.arrivals|
    ensures Accounted(Happens(b, e), b.arrivals[p].id)
  {
    var i := p - b.db.cursors[CONFIG];
    assert RunOf(b, e).listing.value[i].id == b.arrivals[p].id;
    ListedIsAccounted(b, e, i);
  }

  /** However runs, failures, deletions and arrivals interleave, no message that arrived after the last
      finished full scan is ever skipped by the cursor: it has been processed or deleted. */
  lemma {:induction false} NoMessageIsSkipped(events: seq<Event>)
    ensures Covered(History(events))
    decreases |events|
  {
    if events != [] {
      var n := |events| - 1;
      NoMessageIsSkipped(events[..n]);
      var b, e := History(events[..n]), events[n];
      if IsRun(e) && Possible(b, e) {
        RunKeepsCovered(b, e);
      }
    }
  }

  // ---------------------------------------------------------------------------------------
  // What a full scan passes over
  // ---------------------------------------------------------------------------------------

  /** A run adds rows for listed messages only. */
  lemma {:induction false} OnlyListedAreAdded(db: Db, tenant: nat, provider: Provider, listing: seq<Listed>, key: Key)
    requires key in ProcessAll(db, tenant, provider, listing).db.messages
    ensures key in db.messages || exists m :: m in listing && Key(tenant, provider, m.id) == key
    decreases |listing|
  {
    if listing != [] {
      var n := |listing| - 1;
      assert listing[n] in listing && forall m :: m in listing[..n] ==> m in listing;
      if key in ProcessAll(db, tenant, provider, listing[..n]).db.messages {
        OnlyListedAreAdded(db, tenant, provider, listing[..n], key);
      }
    }
  }

  /** A finished full scan moves the cursor past everything that has arrived, and accounts for exactly
      what was accounted for already and what it takes; when all hits fit in its limit, that is every
      message the query finds. */
  lemma FullScanReachesIff(b: Mailbox, e: Event, id: string)
    requires Covered(b) && e.FullScan? && Possible(b, e) && Finished(b.db, RunOf(b, e))
    ensures Happens(b, e).db.cursors == b.db.cursors[CONFIG := |b.arrivals|]
    ensures Accounted(Happens(b, e), id) <==> Accounted(b, id) || id in Taken(e.hits, e.limit)
    ensures |e.hits| <= e.limit ==> (Accounted(Happens(b, e), id) <==> Accounted(b, id) || Found(b, e.after, id))
  {
    var run, taken := RunOf(b, e), Taken(e.hits, e.limit);
    RunKeepsTables(b, e);
    if id in taken {
      var i :| 0 <= i < |taken| && taken[i] == id;
      ListedIsAccounted(b, e, i);
    } else if Processed(Happens(b, e).db, KeyFor(id)) {
      OnlyListedAreAdded(b.db, TENANT, Gmail, run.listing.value, KeyFor(id));
    }
  }

  /** No row, and every arrival under this id lies behind the cursor. */
  ghost predicate PassedOver(b: Mailbox, id: string) {
    && id != "" && KeyFor(id) !in b.db.messages && CONFIG in b.db.cursors
    && forall p :: 0 <= p < |b.arrivals| && b.arrivals[p].id == id ==> p < b.db.cursors[CONFIG]
  }

  /** What can still reach a message that has been passed over: its id arriving again, or a full scan that takes it. */
  ghost predicate Reaches(b: Mailbox, e: Event, id: string) {
    || (e.Arrive? && e.mail.id == id)
    || (e.FullScan? && Possible(b, e) && id in Taken(e.hits, e.limit))
  }

  lemma PassedOverStays(b: Mailbox, e: Event, id: string)
    requires Covered(b) && PassedOver(b, id) && !Reaches(b, e, id)
    ensures PassedOver(Happens(b, e), id)
  {
    if IsRun(e) && Possible(b, e) {
      RunKeepsTables(b, e);
      if KeyFor(id) in Happens(b, e).db.messages {
        OnlyListedAreAdded(b.db, TENANT, Gmail, RunOf(b, e).listing.value, KeyFor(id));
      }
    }
  }

  /** A message that has been passed over never gets a row, through any later arrivals, deletions, runs
      and failures, until its id arrives again or a full scan takes it. */
  lemma {:induction false} PassedOverForGood(events: seq<Event>, n: nat, id: string)
    requires n <= |events| && PassedOver(History(events[..n]), id)
    requires forall j :: n <= j < |events| ==> !Reaches(History(events[..j]), events[j], id)
    ensures PassedOver(History(events), id)
    decreases |events|
  {
    if n == |events| {
      assert events[..n] == events;
    } else {
      var last := |events| - 1;
      var front := events[..last];
      forall j | 0 <= j <= last
        ensures front[..j] == events[..j]
      {
      }
      PassedOverForGood(front, n, id);
      NoMessageIsSkipped(front);
      PassedOverStays(History(front), events[last], id);
    }
  }

  ghost predicate Unmatched(b: Mailbox, id: string) {
    forall p :: 0 <= p < |b.arrivals| && b.arrivals[p].id == id ==> !b.arrivals[p].matches
  }

  /** A message that does not match the query, once behind the cursor without a row, is never processed
      by any later run of any kind, unless its id arrives again. */
  lemma {:induction false} UnmatchedIsNeverReached(events: seq<Event>, n: nat, id: string)
    requires n <= |events| && PassedOver(History(events[..n]), id) && Unmatched(History(events[..n]), id)
    requires forall j :: n <= j < |events| ==> !(events[j].Arrive? && events[j].mail.id == id)
    ensures PassedOver(History(events), id) && Unmatched(History(events), id)
    decreases |events|
  {
    if n == |events| {
      assert events[..n] == events;
    } else {
      var last := |events| - 1;
      assert events[..last][..n] == events[..n];
      UnmatchedIsNeverReached(events[..last], n, id);
      var b := History(events[..last]);
      NoMessageIsSkipped(events[..last]);
      assert !Found(b, if events[last].FullScan? then events[last].after else None, id);
      PassedOverStays(b, events[last], id);
    }
  }

  /** One message without an attachment arrives and the first sync, a full scan, moves the cursor past it. */
  lemma FullScanCanPassOver()
    ensures var b := History([Arrive(Mail("x", false, 0)), FullScan(None, SCAN_LIMIT, [], map[], false)]);
      b.db.cursors == map[CONFIG := 1] && PassedOver(b, "x") && Unmatched(b, "x")
  {
    var mail := Mail("x", false, 0);
    var events := [Arrive(mail), FullScan(None, SCAN_LIMIT, [], map[], false)];
    assert events[..1] == [Arrive(mail)] && events[..1][..0] == [];
    assert History(events[..1]) == Mailbox(Db(map[], map[], []), [mail], {}, 0);
    assert Possible(History(events[..1]), events[1]);
  }
}

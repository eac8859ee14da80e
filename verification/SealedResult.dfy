/**
 Sealing a result: fit it under the wire budget by cutting, record every cut, and sign
 exactly what is delivered. Then the whole path from workload to client.
 */
module SealedResult {
  import opened Common
  import opened Utf8
  import opened SortedText
  import opened Receipts
  import opened OutputCapture

  const MAX_RESULT_BYTES: nat := 4 * 1024 * 1024

  const EVENTS_CUT := "enforcement_events.preview_truncated"
  const STDOUT_CUT := "stdout.preview_truncated"
  const STDERR_CUT := "stderr.preview_truncated"

  // ----- signing what is delivered

  function NonEmpty(s: string): Option<string> { if s == "" then None else Some(s) }

  /** The receipt payload for a result: the recovery record's payload with the outcome filled in. */
  function Covering(c: Crypto, r: SandboxResult, p: Payload): Payload {
    p.(status := r.status, exit_code := r.exit_code,
       started_at := NonEmpty(r.started_at), finished_at := NonEmpty(r.finished_at),
       unavailable_controls := r.unavailable_controls, capture_issues := r.capture_issues,
       outputs_sha256 := c.sha256(c.outputsJson(OutputsOf(r))))
  }

  /** One round of normalising the issues and attaching both receipt forms. */
  function Signed(c: Crypto, key: Bytes, r: SandboxResult, p: Payload): SandboxResult {
    var tidy := r.(capture_issues := SortDedup(r.capture_issues));
    var covering := Covering(c, tidy, p);
    tidy.(receipt_json := c.receiptJson(Sign(c, key, covering)),
          receipt_dsse_json := c.envelopeJson(SignDsse(c, key, covering)))
  }

  /** What a payload says of the admitted task, as opposed to its outcome, is kept. */
  predicate KeepsAdmission(p: Payload, q: Payload) {
    && q.schema == p.schema && q.task_id == p.task_id && q.zone_id == p.zone_id && q.image == p.image
    && q.policy_sha256 == p.policy_sha256 && q.inputs_sha256 == p.inputs_sha256 && q.enforcement == p.enforcement
  }

  /**
   Whatever is signed for the right task and zone passes the client's check in both forms,
   and the receipt it yields is the covering payload.
   */
  lemma SignedResultVerifies(c: Crypto, key: Bytes, r: SandboxResult, p: Payload)
    requires Lawful(c) && p.schema == EXECUTION_RECEIPT_SCHEMA
    requires p.task_id == r.task_id && p.zone_id == r.zone_id
    ensures
      var s := Signed(c, key, r, p);
      var covering := Covering(c, s, p);
      && VerifyReceipts(c, s) == Verdict(Some(Sign(c, key, covering)), Some(SignDsse(c, key, covering)), false)
      && KeepsAdmission(p, covering)
      && (covering.started_at.None? <==> r.started_at == "") && (covering.finished_at.None? <==> r.finished_at == "")
  {
    var s := Signed(c, key, r, p);
    var covering := Covering(c, s, p);
    assert OutputsOf(s) == OutputsOf(r.(capture_issues := s.capture_issues));
    assert s.receipt_json == c.receiptJson(Sign(c, key, covering));
    assert s.receipt_dsse_json == c.envelopeJson(SignDsse(c, key, covering));
    SignedReceiptVerifies(c, key, covering);
    SignedEnvelopeVerifies(c, key, covering);
  }

  // ----- cutting

  /** The issues a result must carry, given what it was cut from. */
  ghost predicate IssuesExact(r0: SandboxResult, r: SandboxResult) {
    forall s :: s in r.capture_issues <==>
      || s in r0.capture_issues
      || (s == EVENTS_CUT && |r.enforcement_events| < |r0.enforcement_events|)
      || (s == STDOUT_CUT && |r.stdout| < |r0.stdout|)
      || (s == STDERR_CUT && |r.stderr| < |r0.stderr|)
  }

  /** `r` is `r0` cut short: text at character boundaries, events from the end, nothing else touched. */
  ghost predicate CutFrom(r0: SandboxResult, r: SandboxResult) {
    && r == r0.(stdout := r.stdout, stderr := r.stderr, enforcement_events := r.enforcement_events,
                capture_issues := r.capture_issues, receipt_json := r.receipt_json, receipt_dsse_json := r.receipt_dsse_json)
    && r.stdout <= r0.stdout && Valid(r.stdout)
    && r.stderr <= r0.stderr && Valid(r.stderr)
    && r.enforcement_events <= r0.enforcement_events
    && IssuesExact(r0, r)
  }

  /** What sealing may cut. */
  datatype Cargo = Cargo(stdout: Bytes, stderr: Bytes, events: seq<EnforcementEvent>)

  const NOTHING := Cargo([], [], [])

  function CargoOf(r: SandboxResult): Cargo { Cargo(r.stdout, r.stderr, r.enforcement_events) }

  /** The result with only `t` left of its contents, and the cuts listed. */
  function CutTo(r: SandboxResult, t: Cargo): SandboxResult {
    r.(stdout := t.stdout, stderr := t.stderr, enforcement_events := t.events,
       capture_issues := r.capture_issues +
         (if |t.events| < |r.enforcement_events| then [EVENTS_CUT] else []) +
         (if |t.stdout| < |r.stdout| then [STDOUT_CUT] else []) +
         (if |t.stderr| < |r.stderr| then [STDERR_CUT] else []))
  }

  /** Everything cuttable cut away: the result's metadata alone. */
  function Stripped(r: SandboxResult): SandboxResult { CutTo(r, NOTHING) }

  /** One cut: half of the events while there are any, then half of the longer stream. */
  ghost predicate Halves(a: Cargo, b: Cargo) {
    if a.events != [] then b == a.(events := a.events[..|a.events| / 2])
    else if |a.stdout| >= |a.stderr| then b == a.(stdout := b.stdout) && LongestText(a.stdout, |a.stdout| / 2, b.stdout)
    else b == a.(stderr := b.stderr) && LongestText(a.stderr, |a.stderr| / 2, b.stderr)
  }

  /** The cuts were made one by one, each because what was left still exceeded the budget. */
  ghost predicate Forced(c: Crypto, key: Bytes, wire: SandboxResult -> nat, r: SandboxResult, p: Payload, tries: seq<Cargo>)
    decreases |tries|
  {
    if |tries| <= 1 then tries == [CargoOf(r)]
    else
      var earlier := tries[..|tries| - 1];
      var last := earlier[|earlier| - 1];
      && Forced(c, key, wire, r, p, earlier)
      && last != NOTHING && Halves(last, tries[|tries| - 1])
      && wire(Signed(c, key, CutTo(r, last), p)) > MAX_RESULT_BYTES
  }

  lemma ForcedMore(c: Crypto, key: Bytes, wire: SandboxResult -> nat, r: SandboxResult, p: Payload, tries: seq<Cargo>, next: Cargo)
    requires Forced(c, key, wire, r, p, tries) && tries[|tries| - 1] != NOTHING && Halves(tries[|tries| - 1], next)
    requires wire(Signed(c, key, CutTo(r, tries[|tries| - 1]), p)) > MAX_RESULT_BYTES
    ensures Forced(c, key, wire, r, p, tries + [next])
  {
    hide Signed, CutTo, Halves;
    var more := tries + [next];
    assert more[..|more| - 1] == tries;
  }

  datatype Outcome = Sealed(result: SandboxResult) | BadSchema | TooLarge

  /** Two cuts of one result that kept the same bytes are signed identically. */
  lemma SameCutSameSeal(c: Crypto, key: Bytes, p: Payload, r0: SandboxResult, a: SandboxResult, b: SandboxResult)
    requires CutFrom(r0, a) && CutFrom(r0, b)
    requires CargoOf(a) == CargoOf(b)
    ensures Signed(c, key, a, p) == Signed(c, key, b, p)
  {
    SortDedupAscends(a.capture_issues);
    SortDedupAscends(b.capture_issues);
    forall y ensures y in SortDedup(a.capture_issues) <==> y in SortDedup(b.capture_issues) {
    }
    AscendingUnique(SortDedup(a.capture_issues), SortDedup(b.capture_issues));
  }

  /** Signing cuts nothing, tidies the issues, and depends only on what is left of the contents. */
  lemma SigningKeepsTheCut(c: Crypto, key: Bytes, p: Payload, r0: SandboxResult, r: SandboxResult)
    requires CutFrom(r0, r)
    ensures
      var s := Signed(c, key, r, p);
      && CutFrom(r0, s) && CargoOf(s) == CargoOf(r) && Ascending(s.capture_issues)
      && s == Signed(c, key, s, p) && s == Signed(c, key, CutTo(r0, CargoOf(r)), p)
  {
    var s := Signed(c, key, r, p);
    SortDedupAscends(r.capture_issues);
    SameCutSameSeal(c, key, p, r0, r, s);
    SameCutSameSeal(c, key, p, r0, r, CutTo(r0, CargoOf(r)));
  }

  /** Halve what `Halves` says to halve, and list the cut. */
  method CutOnce(r: SandboxResult) returns (r': SandboxResult)
    requires Valid(r.stdout) && Valid(r.stderr) && CargoOf(r) != NOTHING
    ensures CutFrom(r, r') && Halves(CargoOf(r), CargoOf(r'))
    ensures |r'.enforcement_events| < |r.enforcement_events|
      || (r.enforcement_events == r'.enforcement_events == [] && |r'.stdout| + |r'.stderr| < |r.stdout| + |r.stderr|)
  {
    if r.enforcement_events != [] {
      r' := r.(enforcement_events := r.enforcement_events[..|r.enforcement_events| / 2],
               capture_issues := r.capture_issues + [EVENTS_CUT]);
    } else if |r.stdout| >= |r.stderr| {
      var short := TruncateUtf8(r.stdout, |r.stdout| / 2);
      r' := r.(stdout := short, capture_issues := r.capture_issues + [STDOUT_CUT]);
    } else {
      var short := TruncateUtf8(r.stderr, |r.stderr| / 2);
      r' := r.(stderr := short, capture_issues := r.capture_issues + [STDERR_CUT]);
    }
  }

  lemma CutFromTransitive(r0: SandboxResult, r: SandboxResult, r': SandboxResult)
    requires CutFrom(r0, r) && CutFrom(r, r')
    ensures CutFrom(r0, r')
  {
  }

  /**
   Sign, measure, cut, repeat. `wire` is the length of the encoded result. Each round halves
   the events, or else the longer stream, so the loop ends; it cuts only while the signed
   result exceeds the budget, and gives up only when there is nothing left to cut.
   */
  method SealBoundedResult(c: Crypto, key: Bytes, wire: SandboxResult -> nat, r0: SandboxResult, p: Payload)
    returns (outcome: Outcome, ghost tries: seq<Cargo>)
    requires Lawful(c) && Valid(r0.stdout) && Valid(r0.stderr)
    ensures outcome.BadSchema? <==> p.schema != EXECUTION_RECEIPT_SCHEMA
    ensures Forced(c, key, wire, r0, p, tries)
    ensures outcome.Sealed? ==>
      var r := outcome.result;
      && r == Signed(c, key, CutTo(r0, tries[|tries| - 1]), p) && r == Signed(c, key, r, p)
      && wire(r) <= MAX_RESULT_BYTES
      && CutFrom(r0, r) && Ascending(r.capture_issues)
    ensures outcome.TooLarge? ==>
      tries[|tries| - 1] == NOTHING && wire(Signed(c, key, Stripped(r0), p)) > MAX_RESULT_BYTES
  {
    hide Signed, Covering, CutFrom, CutTo, Halves, Forced, Ascending, VerifyReceipt, Valid;
    var r := r0;
    tries := [CargoOf(r0)];
    NoCut(c, key, wire, r0, p);
    while true
      invariant CutFrom(r0, r)
      invariant tries != [] && Forced(c, key, wire, r0, p, tries) && tries[|tries| - 1] == CargoOf(r)
      decreases |r.enforcement_events|, |r.stdout| + |r.stderr|
    {
      SigningKeepsTheCut(c, key, p, r0, r);
      r := Signed(c, key, r, p);
      ReceiptVerifiesIff(c, key, r, p);
      if !VerifyReceipt(c, Sign(c, key, Covering(c, r, p))) {
        return BadSchema, tries;
      }
      if wire(r) <= MAX_RESULT_BYTES {
        return Sealed(r), tries;
      }
      if r.enforcement_events == [] && r.stdout == [] && r.stderr == [] {
        return TooLarge, tries;
      }
      ghost var signed := r;
      CutIsText(r0, r);
      r := CutOnce(r);
      CutFromTransitive(r0, signed, r);
      ForcedMore(c, key, wire, r0, p, tries, CargoOf(r));
      tries := tries + [CargoOf(r)];
    }
  }

  lemma NoCut(c: Crypto, key: Bytes, wire: SandboxResult -> nat, r: SandboxResult, p: Payload)
    requires Valid(r.stdout) && Valid(r.stderr)
    ensures CutFrom(r, r) && Forced(c, key, wire, r, p, [CargoOf(r)])
  {
    hide Signed, CutTo, Halves, Valid;
  }

  lemma CutIsText(r0: SandboxResult, r: SandboxResult)
    requires CutFrom(r0, r)
    ensures Valid(r.stdout) && Valid(r.stderr)
  {
  }

  lemma ReceiptVerifiesIff(c: Crypto, key: Bytes, r: SandboxResult, p: Payload)
    requires Lawful(c)
    ensures VerifyReceipt(c, Sign(c, key, Covering(c, r, p))) <==> p.schema == EXECUTION_RECEIPT_SCHEMA
  {
    SignedReceiptVerifies(c, key, Covering(c, r, p));
  }

  // ----- the metadata budget taken before execution

  datatype RecoveryRecord = RecoveryRecord(command: seq<string>, admission: string, receipt: Payload)

  /** The smallest result this record can lead to. */
  function Minimal(record: RecoveryRecord): SandboxResult {
    var p := record.receipt;
    SandboxResult(p.task_id, p.zone_id, record.command, "runtime_error", None, [], [], 0, "", "", [], [],
      record.admission, p.unavailable_controls, "", "", [])
  }

  /** A result with nothing in it but what the record fixes. */
  ghost predicate Bare(m: SandboxResult, record: RecoveryRecord) {
    && m.task_id == record.receipt.task_id && m.zone_id == record.receipt.zone_id
    && m.command == record.command && m.admission == record.admission
    && m.unavailable_controls == record.receipt.unavailable_controls
    && m.status == "runtime_error" && m.exit_code == None && m.duration_ms == 0
    && m.stdout == m.stderr == [] && m.started_at == m.finished_at == m.receipt_json == m.receipt_dsse_json == ""
    && m.events == [] && m.enforcement_events == [] && m.capture_issues == []
  }

  /** Admission measures the signed bare result, and leaves three quarters of the budget free. */
  method ValidateRecoveryBudget(c: Crypto, key: Bytes, wire: SandboxResult -> nat, record: RecoveryRecord) returns (ok: bool)
    requires Lawful(c)
    ensures ok <==>
      && record.receipt.schema == EXECUTION_RECEIPT_SCHEMA
      && wire(Signed(c, key, Minimal(record), record.receipt)) <= 1024 * 1024
    ensures Bare(Minimal(record), record)
  {
    hide Signed, Forced, Halves, Ascending, Lawful;
    var outcome, tries := SealBoundedResult(c, key, wire, Minimal(record), record.receipt);
    match outcome
    case Sealed(r) =>
      SameCutSameSeal(c, key, record.receipt, Minimal(record), r, Minimal(record));
      ok := wire(r) <= MAX_RESULT_BYTES / 4;
    case _ =>
      assert Stripped(Minimal(record)) == Minimal(record);
      ok := false;
  }

  /**
   Admission and sealing together. A record is refused exactly when its minimal result breaks
   the budget, and then nothing is sealed. An admitted one always gets its result sealed,
   however much output and however many events it produced, unless its signed metadata grew by
   more than the 3 MiB the budget left free; and what is sealed is a cut of that result.
   */
  method SealAdmitted(c: Crypto, key: Bytes, wire: SandboxResult -> nat, record: RecoveryRecord, r: SandboxResult, p: Payload)
    returns (outcome: Option<Outcome>)
    requires Lawful(c) && Valid(r.stdout) && Valid(r.stderr)
    requires p.schema == record.receipt.schema
    ensures outcome.Some? <==>
      && record.receipt.schema == EXECUTION_RECEIPT_SCHEMA
      && wire(Signed(c, key, Minimal(record), record.receipt)) <= 1024 * 1024
    ensures outcome.Some? ==> SealOutcome(c, key, wire, r, p, outcome.value) && !outcome.value.BadSchema?
    ensures outcome.Some?
      && wire(Signed(c, key, Stripped(r), p)) <= wire(Signed(c, key, Minimal(record), record.receipt)) + 3 * 1024 * 1024
      ==> outcome.value.Sealed?
  {
    hide Signed, CutFrom, CutTo, Forced, Ascending, Valid, Lawful;
    var admitted := ValidateRecoveryBudget(c, key, wire, record);
    if !admitted {
      return None;
    }
    var sealing, tries := SealBoundedResult(c, key, wire, r, p);
    outcome := Some(sealing);
  }

  /** What sealing `r` may come to: a signed cut of it within the budget, or refusal of its metadata. */
  ghost predicate SealOutcome(
    c: Crypto, key: Bytes, wire: SandboxResult -> nat, r: SandboxResult, p: Payload, outcome: Outcome)
  {
    match outcome
    case Sealed(s) => wire(s) <= 4 * 1024 * 1024 && CutFrom(r, s) && Ascending(s.capture_issues) && s == Signed(c, key, s, p)
    case TooLarge => wire(Signed(c, key, Stripped(r), p)) > 4 * 1024 * 1024
    case BadSchema => p.schema != EXECUTION_RECEIPT_SCHEMA
  }

  // ----- from the workload's writes to the client's check

  /** Some run of the capture system ends in `w`, with the daemon's read finished. */
  ghost predicate Captured(w: World) {
    w.reader.Finished? && exists limit, actions :: Run(Start(limit), actions) == Some(w)
  }

  /** The text shown of one stream. */
  ghost predicate ReadAs(file: FileRead, stream: string, cap: nat, text: Bytes) {
    if file.Contents? then Shows(file.bytes, stream, cap, text) else text == []
  }

  ghost predicate NoIssueOf(stream: string, issues: seq<string>) {
    forall i | 0 <= i < |issues| :: !(stream + "." <= issues[i])
  }

  /** No issue of a stream means a clean reading of it. */
  lemma SilentMeansClean(reading: Reading, stream: string, issues: seq<string>)
    requires forall s | s in reading.Issues(stream) :: s in issues
    ensures NoIssueOf(stream, issues) ==> reading.Clean()
  {
    IssuesNameTheStream(reading, stream);
    if !reading.Clean() {
      var first := reading.Issues(stream)[0];
      assert first in issues;
      var i :| 0 <= i < |issues| && issues[i] == first;
      assert stream + "." <= issues[i];
    }
  }

  lemma CapturedCleanlyIsEverything(w: World)
    requires Captured(w)
    ensures !w.reader.sawMarker ==> w.reader.file == w.sent
  {
    var limit, actions :| Run(Start(limit), actions) == Some(w);
    NoMarkerMeansEverything(limit, actions);
  }

  /** How one stream's capture was read back. */
  datatype StreamRead = StreamRead(capture: World, file: FileRead) {
    ghost predicate Possible() {
      capture.reader.Finished? && Captured(capture) && (file.Contents? ==> file.bytes == capture.reader.file)
    }
    function Reading(cap: nat): OutputCapture.Reading
      requires capture.reader.Finished?
    {
      ReadingOf(capture.reader.sawMarker, file, cap)
    }
  }

  /** `raw` is the result before sealing: what the reader shows of both streams, and every issue. */
  ghost predicate ReadBack(base: SandboxResult, out: StreamRead, err: StreamRead, cap: nat, raw: SandboxResult)
    requires out.Possible() && err.Possible()
  {
    && raw == base.(stdout := raw.stdout, stderr := raw.stderr, capture_issues :=
         out.Reading(cap).Issues("stdout") + err.Reading(cap).Issues("stderr") + base.capture_issues)
    && ReadAs(out.file, "stdout", cap, raw.stdout) && ReadAs(err.file, "stderr", cap, raw.stderr)
  }

  method ReadAllCapped(base: SandboxResult, out: StreamRead, err: StreamRead, cap: nat) returns (raw: SandboxResult)
    requires out.Possible() && err.Possible()
    ensures ReadBack(base, out, err, cap, raw) && Valid(raw.stdout) && Valid(raw.stderr)
  {
    hide Shows, Valid, Captured, ReadingOf, OutputCapture.Reading.Issues;
    var stdout, stderr, issues;
    stdout, issues := ReadTextCapped(out.capture.reader.sawMarker, out.file, "stdout", cap, []);
    stderr, issues := ReadTextCapped(err.capture.reader.sawMarker, err.file, "stderr", cap, issues);
    raw := base.(stdout := stdout, stderr := stderr, capture_issues := issues + base.capture_issues);
  }

  /** A clean reading shows everything the workload wrote. */
  lemma CleanlyReadIsEverything(s: StreamRead, stream: string, cap: nat, text: Bytes)
    requires s.Possible() && ReadAs(s.file, stream, cap, text)
    ensures s.Reading(cap).Clean() ==> text == s.capture.sent
  {
    hide Shows, Captured, OverLimit, Valid;
    CapturedCleanlyIsEverything(s.capture);
    if s.file.Contents? {
      CleanShowsTheFile(s.file.bytes, stream, cap, text);
    }
  }

  /**
   End to end. Read both captures back, add the issues of other sources, seal. If the
   delivered result lists no `stdout.` issue, its stdout is byte for byte everything the
   workload wrote there, and likewise for stderr; and the client's check accepts it. With an
   issue, what is delivered is a cut of what was read. Clean output that fits is delivered
   whole, and sealing refuses only metadata that is too large on its own.
   */
  method Deliver(c: Crypto, key: Bytes, wire: SandboxResult -> nat, base: SandboxResult, p: Payload,
                 out: StreamRead, err: StreamRead, cap: nat)
    returns (outcome: Outcome, ghost raw: SandboxResult)
    requires Lawful(c) && p.task_id == base.task_id && p.zone_id == base.zone_id
    requires out.Possible() && err.Possible()
    ensures ReadBack(base, out, err, cap, raw) && SealOutcome(c, key, wire, raw, p, outcome)
    ensures outcome.Sealed? ==>
      var r := outcome.result;
      && (NoIssueOf("stdout", r.capture_issues) ==> r.stdout == out.capture.sent)
      && (NoIssueOf("stderr", r.capture_issues) ==> r.stderr == err.capture.sent)
      && var verdict := VerifyReceipts(c, r);
         verdict.receipt.Some? && verdict.envelope.Some? && !verdict.problem
    ensures
      var all := Signed(c, key, base.(stdout := out.capture.sent, stderr := err.capture.sent), p);
      p.schema == EXECUTION_RECEIPT_SCHEMA && wire(all) <= MAX_RESULT_BYTES
      && out.Reading(cap).Clean() && err.Reading(cap).Clean()
      ==> outcome == Sealed(all)
  {
    hide Signed, CutFrom, CutTo, Forced, VerifyReceipts, NoIssueOf, Valid, Ascending, ReadBack, ReadingOf, Captured;
    var read := ReadAllCapped(base, out, err, cap);
    raw := read;
    ghost var tries;
    outcome, tries := SealBoundedResult(c, key, wire, read, p);
    if outcome.Sealed? {
      DeliveredHonestly(c, key, base, p, out, err, cap, raw, outcome.result);
    }
    if out.Reading(cap).Clean() && err.Reading(cap).Clean() {
      CleanlyReadBack(base, out, err, cap, raw);
      UncutIfItFits(c, key, wire, raw, p, tries);
    }
  }

  lemma DeliveredHonestly(c: Crypto, key: Bytes, base: SandboxResult, p: Payload,
                          out: StreamRead, err: StreamRead, cap: nat, raw: SandboxResult, r: SandboxResult)
    requires Lawful(c) && p.schema == EXECUTION_RECEIPT_SCHEMA && p.task_id == base.task_id && p.zone_id == base.zone_id
    requires out.Possible() && err.Possible() && ReadBack(base, out, err, cap, raw)
    requires CutFrom(raw, r) && r == Signed(c, key, r, p)
    ensures NoIssueOf("stdout", r.capture_issues) ==> r.stdout == out.capture.sent
    ensures NoIssueOf("stderr", r.capture_issues) ==> r.stderr == err.capture.sent
    ensures VerifyReceipts(c, r).receipt.Some? && VerifyReceipts(c, r).envelope.Some? && !VerifyReceipts(c, r).problem
  {
    hide Signed, CutFrom, VerifyReceipts, NoIssueOf, ReadAs, ReadingOf, Captured;
    SealedVerifies(c, key, raw, r, p);
    CleanlyReadIsEverything(out, "stdout", cap, raw.stdout);
    CleanlyReadIsEverything(err, "stderr", cap, raw.stderr);
    StreamDelivered(raw, r, out.Reading(cap), err.Reading(cap));
  }

  lemma CleanlyReadBack(base: SandboxResult, out: StreamRead, err: StreamRead, cap: nat, raw: SandboxResult)
    requires out.Possible() && err.Possible() && ReadBack(base, out, err, cap, raw)
    requires out.Reading(cap).Clean() && err.Reading(cap).Clean()
    ensures raw == base.(stdout := out.capture.sent, stderr := err.capture.sent)
  {
    hide ReadAs, ReadingOf, Captured;
    CleanlyReadIsEverything(out, "stdout", cap, raw.stdout);
    CleanlyReadIsEverything(err, "stderr", cap, raw.stderr);
    assert [] + [] + base.capture_issues == base.capture_issues;
  }

  lemma SealedVerifies(c: Crypto, key: Bytes, r0: SandboxResult, r: SandboxResult, p: Payload)
    requires Lawful(c) && p.schema == EXECUTION_RECEIPT_SCHEMA && p.task_id == r0.task_id && p.zone_id == r0.zone_id
    requires CutFrom(r0, r) && r == Signed(c, key, r, p)
    ensures VerifyReceipts(c, r).receipt.Some? && VerifyReceipts(c, r).envelope.Some? && !VerifyReceipts(c, r).problem
  {
    hide Signed, Covering, VerifyReceipts;
    SignedResultVerifies(c, key, r, p);
  }

  /** Nothing is cut from a result that fits as it is. */
  lemma {:induction false} UncutIfItFits(
    c: Crypto, key: Bytes, wire: SandboxResult -> nat, r: SandboxResult, p: Payload, tries: seq<Cargo>)
    requires Forced(c, key, wire, r, p, tries)
    ensures CutTo(r, CargoOf(r)) == r
    ensures wire(Signed(c, key, r, p)) <= MAX_RESULT_BYTES ==> tries == [CargoOf(r)]
    decreases |tries|
  {
    if |tries| > 1 {
      UncutIfItFits(c, key, wire, r, p, tries[..|tries| - 1]);
    }
  }

  /** A stream without an issue was read cleanly and not cut by sealing. */
  lemma StreamDelivered(r0: SandboxResult, r: SandboxResult, outReading: Reading, errReading: Reading)
    requires CutFrom(r0, r)
    requires forall s | s in outReading.Issues("stdout") :: s in r0.capture_issues
    requires forall s | s in errReading.Issues("stderr") :: s in r0.capture_issues
    ensures NoIssueOf("stdout", r.capture_issues) ==> outReading.Clean() && r.stdout == r0.stdout
    ensures NoIssueOf("stderr", r.capture_issues) ==> errReading.Clean() && r.stderr == r0.stderr
  {
    hide OutputCapture.Reading.Issues;
    SilentMeansClean(outReading, "stdout", r.capture_issues);
    SilentMeansClean(errReading, "stderr", r.capture_issues);
    if NoIssueOf("stdout", r.capture_issues) {
      assert STDOUT_CUT !in r.capture_issues;
    }
    if NoIssueOf("stderr", r.capture_issues) {
      assert STDERR_CUT !in r.capture_issues;
    }
  }
}

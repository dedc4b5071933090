/**
 Human approval and protected signing (pipeline/approval_service.py).

 One request directory holds write-once files. Creation, the human decision, the execution and the
 status query interleave with changes to the bound files, clock ticks and crashes between the writes
 of an execution. Executions exclude each other by a file lock, so at most one is in progress.
 */
module Approval {
  import opened Common

  // ---------------------------------------------------------------- documents

  datatype Binding = Binding(path: string, sha256: string, size: nat)

  datatype Request = Request(
    id: string, artifact: Binding, evidence: Binding, destination: string,
    signer: string, reviewer: string, profile: string, claim: string, expiresAt: int)

  datatype Decision = Decision(
    requestId: string, operationId: string, requestSha: string, action: string, artifactSha: string,
        evidenceSha: string,
    destination: string, signer: string, policy: string, verdict: string)

  /** What GPG reports about a good signature. */
  datatype Identity = Identity(primary: string, signing: string)

  /** A detached signature: the bytes or document it covers, and who made it. */
  datatype Signed<T> = Signed(covers: T, author: Identity)

  datatype Status = SIGNED | DENIED

  datatype SignatureBinding = SignatureBinding(path: string, digest: string, author: Identity)

  datatype Receipt = Receipt(
    requestId: string, requestSha: string, status: Status, verdict: string, reviewer: Identity,
    artifact: Binding, evidence: Binding, profile: string, claim: string, signature: Option<SignatureBinding>)

  const ACTION := "sign-refactor-evidence"
  const POLICY := "formalspecgen-approval-policy-v2"

  /** Trusted reviewers, and the digests of files, requests and signature files. */
  datatype Config = Config(
    reviewers: set<string>, sha: string -> string, requestSha: Request -> string,
        signatureSha: Signed<string> -> string)

  predicate IsUpperHex(c: char) { '0' <= c <= '9' || 'A' <= c <= 'F' }

  predicate FullFingerprint(s: string) {
    (|s| == 40 || |s| == 64) && forall i | 0 <= i < |s| :: IsUpperHex(s[i])
  }

  /** `_matches_identity` on identities that are already upper case and trimmed. */
  predicate Matches(observed: string, expected: string) {
    FullFingerprint(observed) && FullFingerprint(expected) && observed == expected
  }

  /** `_verify_detached_signature`: the signer's identity, if the signature is good and trusted. */
  function VerifySignature<T(==)>(document: T, signature: Signed<T>, trusted: set<string>,
          expected: string): Option<Identity> {
    if signature.covers == document && (exists key | key in trusted :: Matches(signature.author.primary, key))
       && Matches(signature.author.primary, expected)
    then Some(signature.author) else None
  }

  /** `_validate_decision`: the decision names exactly this request. */
  predicate Binds(cfg: Config, d: Decision, r: Request) {
    && (d.verdict == "approve" || d.verdict == "deny")
    && d.requestId == r.id && d.operationId == r.id && d.requestSha == cfg.requestSha(r) && d.action == ACTION
    && d.artifactSha == r.artifact.sha256 && d.evidenceSha == r.evidence.sha256
    && d.destination == r.destination && d.signer == r.signer && d.policy == POLICY
  }

  /** `_validate_bound_file`. */
  predicate Unchanged(cfg: Config, file: Option<string>, b: Binding) {
    file.Some? && cfg.sha(file.value) == b.sha256 && |file.value| == b.size
  }

  // ---------------------------------------------------------------- states

  datatype DecisionFile = DecisionFile(decision: Decision, signature: Signed<Decision>)

  /** The files of one request, and the two bound files outside the directory. */
  datatype Files = Files(
    request: Option<Request>, decision: Option<DecisionFile>, signature: Option<Signed<string>>,
    receipt: Option<Receipt>, artifact: Option<string>, evidence: Option<string>)

  /** How far the execution that holds the lock has come. */
  datatype Exec =
    | Idle
    | Authenticated(reviewer: Identity)
    | Checked(reviewer: Identity, artifact: string, evidence: string)
    | HasSignature(reviewer: Identity, artifact: string, evidence: string)
    | Verified(reviewer: Identity, artifact: string, evidence: string, signature: Signed<string>, verified: string)

  /** Bytes that the execution behind a SIGNED receipt saw: at its bound-file check, and when it verified. */
  datatype Seen = Seen(artifact: string, evidence: string, verified: string)

  datatype Sys = Sys(files: Files, exec: Exec, clock: int, signerRuns: seq<Option<Signed<string>>>, seen: Option<Seen>)

  datatype Step =
    | Create(request: Request)
    | Decide(file: DecisionFile)
    | ChangeArtifact(bytes: Option<string>)
    | ChangeEvidence(bytes: Option<string>)
    | Tick(elapsed: int)
    | Start
    | Deny
    | CheckFiles
    | Sign(output: Option<Signed<string>>, accepted: bool)
    | Verify
    | Publish
    | CrashExecution

  function Init(clock: int, artifact: Option<string>, evidence: Option<string>): Sys {
    Sys(Files(None, None, None, None, artifact, evidence), Idle, clock, [], None)
  }

  /** The request that creation writes binds the files as they are. */
  predicate CreatedFrom(cfg: Config, s: Sys, r: Request) {
    Unchanged(cfg, s.files.artifact, r.artifact) && Unchanged(cfg, s.files.evidence, r.evidence)
  }

  predicate Enabled(cfg: Config, s: Sys, step: Step) {
    match step
    case Create(r) => s.files.request.None? && CreatedFrom(cfg, s, r)
    case Decide(_) => s.files.request.Some? && s.files.decision.None?
    case Start => s.exec.Idle?
    case Deny => s.exec.Authenticated? && s.files.decision.Some? && s.files.decision.value.decision.verdict == "deny"
    case CheckFiles =>
      s.exec.Authenticated? && s.files.decision.Some? && s.files.decision.value.decision.verdict != "deny"
    case Sign(_, _) => s.exec.Checked?
    case Verify => s.exec.HasSignature?
    case Publish => s.exec.Verified?
    case _ => true
  }

  /** `_validate_request` and `_authenticate_decision`; no reviewer on any error. */
  function Authenticate(cfg: Config, s: Sys): Option<Identity> {
    var f := s.files;
    if f.request.None? || f.request.value.expiresAt <= s.clock || f.decision.None? then None
    else if !Binds(cfg, f.decision.value.decision, f.request.value) then None
    else VerifySignature(f.decision.value.decision, f.decision.value.signature, cfg.reviewers, f.request.value.reviewer)
  }

  function MakeReceipt(cfg: Config, f: Files, status: Status, reviewer: Identity,
          signature: Option<SignatureBinding>): Receipt
    requires f.request.Some? && f.decision.Some?
  {
    var r := f.request.value;
    Receipt(r.id, cfg.requestSha(r), status, f.decision.value.decision.verdict, reviewer,
            r.artifact, r.evidence, r.profile, r.claim, signature)
  }

  /** `_write_once` of the receipt: an existing receipt is never replaced. */
  function WriteReceipt(s: Sys, receipt: Receipt): Sys {
    if s.files.receipt.Some? then s.(exec := Idle)
    else s.(files := s.files.(receipt := Some(receipt)), exec := Idle)
  }

  function StepStart(cfg: Config, s: Sys): Sys {
    if s.files.receipt.Some? then s
    else match Authenticate(cfg, s)
      case None => s
      case Some(reviewer) => s.(exec := Authenticated(reviewer))
  }

  function StepCheck(cfg: Config, s: Sys): Sys
    requires s.exec.Authenticated?
  {
    if s.files.request.Some? && Unchanged(cfg, s.files.artifact, s.files.request.value.artifact)
       && Unchanged(cfg, s.files.evidence, s.files.request.value.evidence)
    then s.(exec := Checked(s.exec.reviewer, s.files.artifact.value, s.files.evidence.value))
    else s.(exec := Idle)
  }

  /** An existing signature is reused; otherwise the protected signer runs, and may fail or crash. */
  function StepSign(s: Sys, output: Option<Signed<string>>, accepted: bool): Sys
    requires s.exec.Checked?
  {
    var ready := HasSignature(s.exec.reviewer, s.exec.artifact, s.exec.evidence);
    if s.files.signature.Some? then s.(exec := ready)
    else
      s.(files := s.files.(signature := output), signerRuns := s.signerRuns + [output],
         exec := if accepted && output.Some? then ready else Idle)
  }

  function StepVerify(s: Sys): Sys
    requires s.exec.HasSignature?
  {
    var f := s.files;
    if f.signature.Some? && f.artifact.Some? && f.request.Some?
       && VerifySignature(f.artifact.value, f.signature.value, {f.request.value.signer}, f.request.value.signer).Some?
    then s.(exec := Verified(s.exec.reviewer, s.exec.artifact, s.exec.evidence, f.signature.value, f.artifact.value))
    else s.(exec := Idle)
  }

  function StepPublish(cfg: Config, s: Sys): Sys
    requires s.exec.Verified? && s.files.request.Some? && s.files.decision.Some?
  {
    var binding := SignatureBinding(s.files.request.value.destination, cfg.signatureSha(s.exec.signature),
        s.exec.signature.author);
    var after := WriteReceipt(s, MakeReceipt(cfg, s.files, SIGNED, s.exec.reviewer, Some(binding)));
    if s.files.receipt.Some? then after
    else after.(seen := Some(Seen(s.exec.artifact, s.exec.evidence, s.exec.verified)))
  }

  function Next(cfg: Config, s: Sys, step: Step): Sys
    requires Enabled(cfg, s, step)
  {
    match step
    case Create(r) => s.(files := s.files.(request := Some(r)))
    case Decide(file) => s.(files := s.files.(decision := Some(file)))
    case ChangeArtifact(bytes) => s.(files := s.files.(artifact := bytes))
    case ChangeEvidence(bytes) => s.(files := s.files.(evidence := bytes))
    case Tick(elapsed) => s.(clock := s.clock + elapsed)
    case Start => StepStart(cfg, s)
    case Deny =>
      if s.files.request.Some? then WriteReceipt(s, MakeReceipt(cfg, s.files, DENIED, s.exec.reviewer, None)) else s
    case CheckFiles => StepCheck(cfg, s)
    case Sign(output, accepted) => StepSign(s, output, accepted)
    case Verify => StepVerify(s)
    case Publish => if s.files.request.Some? && s.files.decision.Some? then StepPublish(cfg, s) else s
    case CrashExecution => s.(exec := Idle)
  }

  datatype Run = Run(states: seq<Sys>, steps: seq<Step>)

  ghost predicate ValidRun(cfg: Config, run: Run) {
    && |run.states| == |run.steps| + 1
    && (exists clock, artifact, evidence :: run.states[0] == Init(clock, artifact, evidence))
    && forall i | 0 <= i < |run.steps| :: StepAt(cfg, run, i)
  }

  ghost predicate StepAt(cfg: Config, run: Run, i: nat)
    requires i < |run.steps| < |run.states|
  {
    Enabled(cfg, run.states[i], run.steps[i]) && run.states[i + 1] == Next(cfg, run.states[i], run.steps[i])
  }

  // ---------------------------------------------------------------- invariant

  /** The recorded decision is bound to the request and authentically signed by the bound, trusted reviewer. */
  ghost predicate Authentic(cfg: Config, f: Files, reviewer: Identity) {
    && f.request.Some? && f.decision.Some?
    && Binds(cfg, f.decision.value.decision, f.request.value)
    && VerifySignature(f.decision.value.decision, f.decision.value.signature, cfg.reviewers, f.request.value.reviewer)
        == Some(reviewer)
  }

  ghost predicate Approved(cfg: Config, f: Files, reviewer: Identity) {
    Authentic(cfg, f, reviewer) && f.decision.value.decision.verdict == "approve"
  }

  /** Bytes that match what the request bound. */
  ghost predicate SeenUnchanged(cfg: Config, f: Files, artifact: string, evidence: string) {
    && f.request.Some?
    && Unchanged(cfg, Some(artifact), f.request.value.artifact)
    && Unchanged(cfg, Some(evidence), f.request.value.evidence)
  }

  ghost predicate ExecOk(cfg: Config, s: Sys) {
    match s.exec
    case Idle => true
    case Authenticated(reviewer) => s.files.receipt.None? && Authentic(cfg, s.files, reviewer)
    case Checked(reviewer, artifact, evidence) =>
      s.files.receipt.None? && Approved(cfg, s.files, reviewer) && SeenUnchanged(cfg, s.files, artifact, evidence)
    case HasSignature(reviewer, artifact, evidence) =>
      && s.files.receipt.None? && Approved(cfg, s.files, reviewer) && SeenUnchanged(cfg, s.files, artifact, evidence)
      && s.files.signature.Some?
    case Verified(reviewer, artifact, evidence, signature, verified) =>
      && signature.covers == verified
      && s.files.receipt.None? && Approved(cfg, s.files, reviewer) && SeenUnchanged(cfg, s.files, artifact, evidence)
      && s.files.signature == Some(signature) && Matches(signature.author.primary, s.files.request.value.signer)
  }

  ghost predicate ReceiptOk(cfg: Config, s: Sys) {
    s.files.receipt.Some? ==>
      var receipt := s.files.receipt.value;
      && Authentic(cfg, s.files, receipt.reviewer)
      && (exists signature :: receipt == MakeReceipt(cfg, s.files, receipt.status, receipt.reviewer, signature))
      && (receipt.status == DENIED ==> receipt.verdict == "deny" && receipt.signature.None?)
      && (receipt.status == SIGNED ==>
            && Approved(cfg, s.files, receipt.reviewer)
            && s.seen.Some? && SeenUnchanged(cfg, s.files, s.seen.value.artifact, s.seen.value.evidence)
            && s.files.signature.Some? && Matches(s.files.signature.value.author.primary, s.files.request.value.signer)
            && s.files.signature.value.covers == s.seen.value.verified
            && receipt.signature == Some(SignatureBinding(
                 s.files.request.value.destination, cfg.signatureSha(s.files.signature.value),
                 s.files.signature.value.author)))
  }

  /** The signer ran only for an approval, and every run but the last left no signature behind. */
  ghost predicate RunsOk(cfg: Config, s: Sys) {
    && (s.signerRuns != [] ==> exists reviewer :: Approved(cfg, s.files, reviewer))
    && (forall k | 0 <= k < |s.signerRuns| - 1 :: s.signerRuns[k].None?)
    && s.files.signature == (if s.signerRuns == [] then None else s.signerRuns[|s.signerRuns| - 1])
  }

  ghost predicate Inv(cfg: Config, s: Sys) {
    && (s.files.request.None? ==> s.files.decision.None?)
    && ExecOk(cfg, s) && ReceiptOk(cfg, s) && RunsOk(cfg, s)
  }

  lemma ExecStep(cfg: Config, s: Sys, step: Step)
    requires Inv(cfg, s) && Enabled(cfg, s, step)
    ensures ExecOk(cfg, Next(cfg, s, step))
  {
    hide FullFingerprint;
  }

  lemma SameReceiptInputs(cfg: Config, f: Files, g: Files, status: Status, reviewer: Identity,
          signature: Option<SignatureBinding>)
    requires f.request.Some? && f.decision.Some? && g.request == f.request && g.decision == f.decision
    ensures MakeReceipt(cfg, g, status, reviewer, signature) == MakeReceipt(cfg, f, status, reviewer, signature)
  {
  }

  lemma OldReceiptStep(cfg: Config, s: Sys, step: Step)
    requires Inv(cfg, s) && Enabled(cfg, s, step) && s.files.receipt.Some?
    ensures ReceiptOk(cfg, Next(cfg, s, step))
  {
    hide Matches, Binds, VerifySignature;
    var t := Next(cfg, s, step);
    assert t.files.receipt == s.files.receipt && t.files.request == s.files.request &&
        t.files.decision == s.files.decision;
    assert s.exec.Idle?;
    var receipt := s.files.receipt.value;
    var signature :| receipt == MakeReceipt(cfg, s.files, receipt.status, receipt.reviewer, signature);
    SameReceiptInputs(cfg, s.files, t.files, receipt.status, receipt.reviewer, signature);
  }

  lemma NewReceiptStep(cfg: Config, s: Sys, step: Step)
    requires Inv(cfg, s) && Enabled(cfg, s, step) && s.files.receipt.None?
    ensures ReceiptOk(cfg, Next(cfg, s, step))
  {
    hide Matches, Binds, VerifySignature;
    var t := Next(cfg, s, step);
    if t.files.receipt.Some? {
      var receipt := t.files.receipt.value;
      assert receipt == MakeReceipt(cfg, t.files, receipt.status, receipt.reviewer, receipt.signature);
    }
  }

  lemma RunsStep(cfg: Config, s: Sys, step: Step)
    requires Inv(cfg, s) && Enabled(cfg, s, step)
    ensures RunsOk(cfg, Next(cfg, s, step))
  {
    hide Matches, Binds, VerifySignature, ReceiptOk;
    var t := Next(cfg, s, step);
    if s.signerRuns != [] {
      var reviewer :| Approved(cfg, s.files, reviewer);
      assert Approved(cfg, t.files, reviewer);
    } else if t.signerRuns != [] {
      assert Approved(cfg, t.files, s.exec.reviewer);
    }
  }

  lemma {:induction false} RunInv(cfg: Config, run: Run, n: nat)
    requires ValidRun(cfg, run) && n < |run.states|
    ensures Inv(cfg, run.states[n])
  {
    hide ExecOk, ReceiptOk, RunsOk;
    if n > 0 {
      RunInv(cfg, run, n - 1);
      assert StepAt(cfg, run, n - 1);
      var s, step := run.states[n - 1], run.steps[n - 1];
      ExecStep(cfg, s, step);
      if s.files.receipt.Some? { OldReceiptStep(cfg, s, step); } else { NewReceiptStep(cfg, s, step); }
      RunsStep(cfg, s, step);
    } else {
      InitInv(cfg, run.states[0]);
    }
  }

  lemma InitInv(cfg: Config, s: Sys)
    requires exists clock, artifact, evidence :: s == Init(clock, artifact, evidence)
    ensures Inv(cfg, s)
  {
  }

  // ---------------------------------------------------------------- what a request binds

  /** A request binds the files as they were when it was created, byte for byte up to the digest. */
  lemma {:induction false} RequestBindsFiles(cfg: Config, run: Run, n: nat) returns (k: nat)
    requires ValidRun(cfg, run) && n < |run.states| && run.states[n].files.request.Some?
    ensures k < n && run.steps[k] == Create(run.states[n].files.request.value)
    ensures var r, f := run.states[n].files.request.value, run.states[k].files;
            && f.artifact.Some? && cfg.sha(f.artifact.value) == r.artifact.sha256
            && |f.artifact.value| == r.artifact.size
            && f.evidence.Some? && cfg.sha(f.evidence.value) == r.evidence.sha256
            && |f.evidence.value| == r.evidence.size
  {
    if n == 0 {
      assert false;
    } else {
      assert StepAt(cfg, run, n - 1);
      if run.states[n - 1].files.request.Some? {
        RequestBindsFilesStep(cfg, run.states[n - 1], run.steps[n - 1]);
        k := RequestBindsFiles(cfg, run, n - 1);
      } else {
        k := n - 1;
      }
    }
  }

  lemma RequestBindsFilesStep(cfg: Config, s: Sys, step: Step)
    requires Enabled(cfg, s, step) && s.files.request.Some?
    ensures Next(cfg, s, step).files.request == s.files.request
  {
    hide Authenticate, Unchanged, MakeReceipt;
  }

  // ---------------------------------------------------------------- what a receipt means

  /**
   A SIGNED receipt in any run implies an authenticated approval: a decision to approve that names
   this request's digest, artifact, evidence, destination and signer, signed by the bound and trusted
   reviewer, with both files unchanged at that execution's bound-file check, and a signature of the bound
   signer over exactly the artifact bytes that the execution verified it against.
   */
  lemma SignedMeansApproved(cfg: Config, run: Run, n: nat)
    requires ValidRun(cfg, run) && n < |run.states|
    requires run.states[n].files.receipt.Some? && run.states[n].files.receipt.value.status == SIGNED
    ensures var s := run.states[n];
            && s.files.request.Some? && s.files.decision.Some? && s.seen.Some?
            && var r, d, author := s.files.request.value, s.files.decision.value, s.files.receipt.value.reviewer;
            && d.decision.verdict == "approve" && d.decision.requestSha == cfg.requestSha(r)
            && d.decision.requestId == r.id && d.decision.operationId == r.id
            && d.decision.action == "sign-refactor-evidence"
            && d.decision.policy == "formalspecgen-approval-policy-v2"
            && d.decision.artifactSha == r.artifact.sha256 && d.decision.evidenceSha == r.evidence.sha256
            && d.decision.destination == r.destination && d.decision.signer == r.signer
            && d.signature == Signed(d.decision, author) && author.primary in cfg.reviewers
            && author.primary == r.reviewer
            && cfg.sha(s.seen.value.artifact) == r.artifact.sha256 && |s.seen.value.artifact| == r.artifact.size
            && cfg.sha(s.seen.value.evidence) == r.evidence.sha256 && |s.seen.value.evidence| == r.evidence.size
            && s.files.signature.Some? && s.files.signature.value.author.primary == r.signer
            && s.files.signature.value.covers == s.seen.value.verified
            && s.files.receipt.value
               == Receipt(r.id, cfg.requestSha(r), SIGNED, "approve", author, r.artifact, r.evidence, r.profile,
                   r.claim,
                          Some(SignatureBinding(r.destination, cfg.signatureSha(s.files.signature.value),
                                                s.files.signature.value.author)))
  {
    hide FullFingerprint, ExecOk, RunsOk;
    RunInv(cfg, run, n);
  }

  /** A denial is as authentic as an approval: what the recorded decision and its signature must be. */
  lemma AuthenticExact(cfg: Config, f: Files, reviewer: Identity)
    requires f.request.Some? && f.decision.Some?
    ensures var r, d := f.request.value, f.decision.value;
            Authentic(cfg, f, reviewer) <==>
            && (d.decision.verdict == "approve" || d.decision.verdict == "deny")
            && d.decision.requestId == r.id && d.decision.operationId == r.id
            && d.decision.requestSha == cfg.requestSha(r) && d.decision.action == "sign-refactor-evidence"
            && d.decision.artifactSha == r.artifact.sha256 && d.decision.evidenceSha == r.evidence.sha256
            && d.decision.destination == r.destination && d.decision.signer == r.signer
            && d.decision.policy == "formalspecgen-approval-policy-v2"
            && d.signature == Signed(d.decision, reviewer) && reviewer.primary == r.reviewer
            && reviewer.primary in cfg.reviewers
            && (|r.reviewer| == 40 || |r.reviewer| == 64) && (forall c | c in r.reviewer :: c in "0123456789ABCDEF")
  {
    UpperHexDigits(f.request.value.reviewer);
    hide FullFingerprint;
  }

  lemma UpperHexDigits(s: string)
    ensures FullFingerprint(s) <==> (|s| == 40 || |s| == 64) && forall c | c in s :: c in "0123456789ABCDEF"
  {
    assert forall c | c in "0123456789ABCDEF" :: IsUpperHex(c);
    forall c | IsUpperHex(c) ensures c in "0123456789ABCDEF" {
      HexDigit(c);
    }
  }

  lemma HexDigit(c: char)
    requires IsUpperHex(c)
    ensures c in "0123456789ABCDEF"
  {
    var digits := "0123456789ABCDEF";
    var k := if c <= '9' then c as int - '0' as int else c as int - 'A' as int + 10;
    assert digits[k] == c;
  }

  // ---------------------------------------------------------------- nothing happens after expiry

  /** The request has not run out. */
  predicate InTime(s: Sys) {
    s.files.request.Some? && s.clock < s.files.request.value.expiresAt
  }

  /** The execution in progress at `n` is the one that started, in time, at step `i`. */
  ghost predicate RunningSince(run: Run, i: nat, n: nat)
    requires n <= |run.steps| < |run.states|
  {
    i < n && run.steps[i] == Start && InTime(run.states[i]) && forall k | i < k <= n :: !run.states[k].exec.Idle?
  }

  lemma OnlyStartBegins(cfg: Config, s: Sys, step: Step)
    requires Enabled(cfg, s, step) && s.exec.Idle? && !Next(cfg, s, step).exec.Idle?
    ensures step == Start && InTime(s)
  {
    hide Binds, VerifySignature;
  }

  lemma {:induction false} RunningHasStart(cfg: Config, run: Run, n: nat) returns (i: nat)
    requires ValidRun(cfg, run) && n < |run.states| && !run.states[n].exec.Idle?
    ensures RunningSince(run, i, n)
  {
    hide Next, Enabled, InTime;
    if n == 0 {
      assert false;
    } else {
      assert StepAt(cfg, run, n - 1);
      if run.states[n - 1].exec.Idle? {
        OnlyStartBegins(cfg, run.states[n - 1], run.steps[n - 1]);
        i := n - 1;
      } else {
        i := RunningHasStart(cfg, run, n - 1);
      }
    }
  }

  /** Receipts come from executions in progress, and so do signer runs, one at a time. */
  lemma OnlyExecutionsWrite(cfg: Config, s: Sys, step: Step)
    requires Enabled(cfg, s, step)
    ensures Next(cfg, s, step).files.receipt != s.files.receipt ==> !s.exec.Idle? && (step == Deny || step == Publish)
    ensures Next(cfg, s, step).signerRuns != s.signerRuns ==>
              !s.exec.Idle? && step.Sign? && Next(cfg, s, step).signerRuns == s.signerRuns + [step.output]
  {
    hide Binds, VerifySignature, Unchanged, MakeReceipt;
  }

  /** Every receipt was written by an execution that started before the request ran out. */
  lemma {:induction false} PublishedInTime(cfg: Config, run: Run, n: nat) returns (i: nat, p: nat)
    requires ValidRun(cfg, run) && n < |run.states| && run.states[n].files.receipt.Some?
    ensures i < p < n && RunningSince(run, i, p) && (run.steps[p] == Deny || run.steps[p] == Publish)
    ensures run.states[p].files.receipt.None? && run.states[p + 1].files.receipt == run.states[n].files.receipt
    ensures run.states[i].files.request == run.states[n].files.request
    ensures run.states[i].clock < run.states[n].files.request.value.expiresAt
  {
    hide Next, Enabled;
    if n == 0 {
      assert false;
    } else {
      assert StepAt(cfg, run, n - 1);
      if run.states[n - 1].files.receipt.Some? {
        i, p := PublishedInTime(cfg, run, n - 1);
        SealedForever(cfg, run, n - 1, n);
      } else {
        OnlyExecutionsWrite(cfg, run.states[n - 1], run.steps[n - 1]);
        p := n - 1;
        i := RunningHasStart(cfg, run, p);
        SealedForever(cfg, run, i, n);
      }
    }
  }

  /** Every run of the protected signer belongs to an execution that started before the request ran out. */
  lemma {:induction false} SignedInTime(cfg: Config, run: Run, n: nat, k: nat) returns (i: nat, p: nat)
    requires ValidRun(cfg, run) && n < |run.states| && k < |run.states[n].signerRuns|
    ensures i < p < n && RunningSince(run, i, p) && run.steps[p].Sign?
    ensures run.steps[p].output == run.states[n].signerRuns[k]
    ensures |run.states[p].signerRuns| == k && run.states[i].files.request == run.states[n].files.request
    ensures run.states[i].clock < run.states[n].files.request.value.expiresAt
  {
    hide Next, Enabled;
    if n == 0 {
      assert false;
    } else {
      assert StepAt(cfg, run, n - 1);
      OnlyExecutionsWrite(cfg, run.states[n - 1], run.steps[n - 1]);
      if k < |run.states[n - 1].signerRuns| {
        i, p := SignedInTime(cfg, run, n - 1, k);
        SealedForever(cfg, run, n - 1, n);
      } else {
        p := n - 1;
        i := RunningHasStart(cfg, run, p);
        SealedForever(cfg, run, i, n);
      }
    }
  }

  // ---------------------------------------------------------------- what a published signature covers

  predicate ArtifactStill(run: Run, i: nat, n: nat)
    requires n <= |run.steps|
  {
    forall k | i <= k < n :: !run.steps[k].ChangeArtifact?
  }

  /** A bound-file check saw these bytes, which are still there unless some step changed the artifact. */
  ghost predicate CheckedAt(run: Run, i: nat, n: nat, artifact: string)
    requires n <= |run.steps| < |run.states|
  {
    && i < n && run.steps[i] == CheckFiles && run.states[i].files.artifact == Some(artifact)
    && (ArtifactStill(run, i, n) ==> run.states[n].files.artifact == Some(artifact))
  }

  /** The same execution verified the signature against these bytes. */
  ghost predicate VerifiedAt(run: Run, i: nat, j: nat, artifact: string, verified: string)
    requires j < |run.steps| < |run.states|
  {
    CheckedAt(run, i, j, artifact) && run.steps[j] == Verify && run.states[j].files.artifact == Some(verified)
  }

  /** Where the bytes an execution remembers come from. */
  ghost predicate Provenance(run: Run, n: nat)
    requires n <= |run.steps| < |run.states|
  {
    var s := run.states[n];
    && (s.exec.Checked? || s.exec.HasSignature? ==> exists i :: CheckedAt(run, i, n, s.exec.artifact))
    && (s.exec.Verified? ==> exists i, j | 0 <= i < j < n :: VerifiedAt(run, i, j, s.exec.artifact, s.exec.verified))
    && (s.seen.Some? ==> exists i, j | 0 <= i < j < n ::
        VerifiedAt(run, i, j, s.seen.value.artifact, s.seen.value.verified))
  }

  /** Only a check, a signer step or a verification moves an execution on. */
  lemma ExecMoves(cfg: Config, s: Sys, step: Step)
    requires Enabled(cfg, s, step)
    ensures var t := Next(cfg, s, step);
            && (t.exec.Checked? && t.exec != s.exec ==>
                  step == CheckFiles && s.files.artifact == Some(t.exec.artifact) && t.files == s.files)
            && (t.exec.HasSignature? && t.exec != s.exec ==> s.exec.Checked? && t.exec.artifact == s.exec.artifact)
            && (t.exec.Verified? && t.exec != s.exec ==>
                  && step == Verify && s.exec.HasSignature? && t.exec.artifact == s.exec.artifact
                  && s.files.artifact == Some(t.exec.verified))
            && (t.seen != s.seen ==>
                  s.exec.Verified? && t.seen == Some(Seen(s.exec.artifact, s.exec.evidence, s.exec.verified)))
            && (!step.ChangeArtifact? ==> t.files.artifact == s.files.artifact)
  {
    hide Matches, Binds, VerifySignature, Unchanged, FullFingerprint, MakeReceipt;
    assert step.CheckFiles? && Next(cfg, s, step).exec.Checked? ==> s.files.artifact.Some? by {
      if step.CheckFiles? && s.files.request.Some? && Unchanged(cfg, s.files.artifact, s.files.request.value.artifact) {
        UnchangedExists(cfg, s.files.artifact, s.files.request.value.artifact);
      }
    }
  }

  lemma CheckLasts(run: Run, i: nat, n: nat, artifact: string)
    requires n < |run.steps| < |run.states| && CheckedAt(run, i, n, artifact)
    requires !run.steps[n].ChangeArtifact? ==> run.states[n + 1].files.artifact == run.states[n].files.artifact
    ensures CheckedAt(run, i, n + 1, artifact)
  {
    assert ArtifactStill(run, i, n + 1) ==> ArtifactStill(run, i, n) && !run.steps[n].ChangeArtifact?;
  }

  lemma {:induction false} RunProvenance(cfg: Config, run: Run, n: nat)
    requires ValidRun(cfg, run) && n < |run.states|
    ensures Provenance(run, n)
  {
    hide Next, Enabled, CheckedAt, VerifiedAt;
    if n > 0 {
      var m := n - 1;
      RunProvenance(cfg, run, m);
      assert StepAt(cfg, run, m);
      var s, step, t := run.states[m], run.steps[m], run.states[n];
      ExecMoves(cfg, s, step);
      if t.exec.Checked? || t.exec.HasSignature? {
        if s.exec.Checked? || s.exec.HasSignature? {
          var i :| CheckedAt(run, i, m, s.exec.artifact);
          CheckLasts(run, i, m, s.exec.artifact);
          assert t.exec.artifact == s.exec.artifact ==> CheckedAt(run, i, n, t.exec.artifact);
        }
        if step == CheckFiles && s.files.artifact == Some(t.exec.artifact) && t.files == s.files {
          FreshCheck(run, m, t.exec.artifact);
        }
      }
      if t.exec.Verified? && t.exec != s.exec {
        var i :| CheckedAt(run, i, m, s.exec.artifact);
        FreshVerification(run, i, m, s.exec.artifact, t.exec.verified);
      }
    }
  }

  lemma FreshCheck(run: Run, m: nat, artifact: string)
    requires m < |run.steps| < |run.states| && run.steps[m] == CheckFiles
    requires run.states[m].files.artifact == Some(artifact) && run.states[m + 1].files == run.states[m].files
    ensures CheckedAt(run, m, m + 1, artifact)
  {
  }

  lemma FreshVerification(run: Run, i: nat, m: nat, artifact: string, verified: string)
    requires m < |run.steps| < |run.states| && CheckedAt(run, i, m, artifact)
    requires run.steps[m] == Verify && run.states[m].files.artifact == Some(verified)
    ensures i < m && VerifiedAt(run, i, m, artifact, verified)
  {
  }

  /**
   What every SIGNED receipt's signature covers: some execution checked the bound files at step i and
   verified at a later step j, and the signature covers exactly the artifact as it was at j. So it covers
   approved bytes if and only if the artifact at j still matched what the request binds; and no change of
   the artifact from i to j is enough for that.
   */
  lemma SignedCovers(cfg: Config, run: Run, n: nat) returns (i: nat, j: nat)
    requires ValidRun(cfg, run) && n < |run.states|
    requires run.states[n].files.receipt.Some? && run.states[n].files.receipt.value.status == SIGNED
    ensures i < j < n && run.steps[i] == CheckFiles && run.steps[j] == Verify
    ensures var f := run.states[n].files;
            && f.request.Some? && f.signature.Some?
            && run.states[j].files.artifact == Some(f.signature.value.covers)
            && Unchanged(cfg, run.states[i].files.artifact, f.request.value.artifact)
            && (Unchanged(cfg, Some(f.signature.value.covers), f.request.value.artifact) <==>
                  Unchanged(cfg, run.states[j].files.artifact, f.request.value.artifact))
            && (ArtifactStill(run, i, j) ==> Unchanged(cfg, Some(f.signature.value.covers), f.request.value.artifact))
  {
    RunInv(cfg, run, n);
    RunProvenance(cfg, run, n);
    var s := run.states[n];
    hide ExecOk, RunsOk, FullFingerprint, Matches, Binds, Unchanged, VerifySignature;
    i, j :| 0 <= i < j < n && VerifiedAt(run, i, j, s.seen.value.artifact, s.seen.value.verified);
  }

  /** A recorded denial never runs the signer, before or after its receipt. */
  lemma DenialNeverSigns(cfg: Config, run: Run, n: nat)
    requires ValidRun(cfg, run) && n < |run.states|
    requires run.states[n].files.decision.Some? && run.states[n].files.decision.value.decision.verdict == "deny"
    ensures run.states[n].signerRuns == [] && run.states[n].files.signature.None?
    ensures var f := run.states[n].files;
            f.receipt.Some? ==>
              && f.request.Some? && Authentic(cfg, f, f.receipt.value.reviewer)
              && var r := f.request.value;
              f.receipt.value == Receipt(r.id, cfg.requestSha(r), DENIED, "deny", f.receipt.value.reviewer,
                                         r.artifact, r.evidence, r.profile, r.claim, None)
  {
    RunInv(cfg, run, n);
    hide FullFingerprint, Binds;
  }

  /** Once a signature or a receipt exists, the signer never runs again; neither file ever changes. */
  lemma SealStep(cfg: Config, s: Sys, step: Step)
    requires Inv(cfg, s) && Enabled(cfg, s, step)
    ensures var t := Next(cfg, s, step);
            && (s.files.receipt.Some? ==> t.files.receipt == s.files.receipt)
            && (s.files.signature.Some? ==> t.files.signature == s.files.signature)
            && (s.files.receipt.Some? || s.files.signature.Some? ==> t.signerRuns == s.signerRuns)
            && (s.files.request.Some? ==> t.files.request == s.files.request)
            && (s.files.decision.Some? ==> t.files.decision == s.files.decision)
  {
    hide Matches, Binds, VerifySignature, ReceiptOk, RunsOk;
  }

  lemma {:induction false} SealedForever(cfg: Config, run: Run, i: nat, j: nat)
    requires ValidRun(cfg, run) && i <= j < |run.states|
    ensures var s, t := run.states[i], run.states[j];
            && (s.files.receipt.Some? ==> t.files.receipt == s.files.receipt)
            && (s.files.signature.Some? ==> t.files.signature == s.files.signature)
            && (s.files.receipt.Some? || s.files.signature.Some? ==> t.signerRuns == s.signerRuns)
            && (s.files.request.Some? ==> t.files.request == s.files.request)
            && (s.files.decision.Some? ==> t.files.decision == s.files.decision)
    decreases j - i
  {
    hide Inv, Next;
    if i < j {
      SealedForever(cfg, run, i, j - 1);
      RunInv(cfg, run, j - 1);
      assert StepAt(cfg, run, j - 1);
      SealStep(cfg, run.states[j - 1], run.steps[j - 1]);
    }
  }

  /** At most one signer run of a request leaves a signature, and it is the last run. */
  lemma SignsOnce(cfg: Config, run: Run, n: nat)
    requires ValidRun(cfg, run) && n < |run.states|
    ensures forall k | 0 <= k < |run.states[n].signerRuns| - 1 :: run.states[n].signerRuns[k].None?
    ensures run.states[n].files.signature.Some? ==>
              |run.states[n].signerRuns| > 0 &&
                  run.states[n].signerRuns[|run.states[n].signerRuns| - 1] == run.states[n].files.signature
  {
    RunInv(cfg, run, n);
  }

  // ---------------------------------------------------------------- retry and status

  /**
   A crash after signing and before the receipt is harmless: as long as the request has not expired
   and the files still match, executing again publishes a receipt from the existing signature without
   running the signer.
   */
  lemma RetryPublishes(cfg: Config, run: Run, n: nat)
    requires ValidRun(cfg, run) && n < |run.states|
    requires var s := run.states[n];
             && s.exec.Idle? && s.files.receipt.None? && s.files.signature.Some? && s.files.request.Some?
             && s.clock < s.files.request.value.expiresAt
             && Unchanged(cfg, s.files.artifact, s.files.request.value.artifact)
             && Unchanged(cfg, s.files.evidence, s.files.request.value.evidence)
             && s.files.signature.value.covers == s.files.artifact.value
             && Matches(s.files.signature.value.author.primary, s.files.request.value.signer)
    ensures var s := run.states[n];
            var a := Next(cfg, s, Start);
            && Enabled(cfg, a, CheckFiles)
            && var b := Next(cfg, a, CheckFiles);
            && Enabled(cfg, b, Sign(None, true))
            && var c := Next(cfg, b, Sign(None, true));
            && Enabled(cfg, c, Verify)
            && var d := Next(cfg, c, Verify);
            && Enabled(cfg, d, Publish)
            && var e := Next(cfg, d, Publish);
            && e.files.receipt.Some? && e.files.receipt.value.status == SIGNED && e.signerRuns == s.signerRuns
  {
    hide FullFingerprint, Binds, ReceiptOk, ExecOk;
    RunInv(cfg, run, n);
  }

  /** `_validated_receipt_response`: the status a later query reports, or none on any mismatch. */
  function ReportedStatus(cfg: Config, f: Files): Option<Status> {
    if f.receipt.None? || f.request.None? then None
    else
      var receipt, r := f.receipt.value, f.request.value;
      if receipt.requestId != r.id || receipt.requestSha != cfg.requestSha(r) || receipt.artifact != r.artifact
         || receipt.evidence != r.evidence || receipt.profile != r.profile || receipt.claim != r.claim
         || !Matches(receipt.reviewer.primary, r.reviewer) || !FullFingerprint(receipt.reviewer.signing) then None
      else if !Unchanged(cfg, f.artifact, r.artifact) || !Unchanged(cfg, f.evidence, r.evidence) then None
      else if receipt.status == DENIED then Some(DENIED)
      else if receipt.signature.None? || f.signature.None?
              || cfg.signatureSha(f.signature.value) != receipt.signature.value.digest then None
      else match VerifySignature(f.artifact.value, f.signature.value, {r.signer}, r.signer)
        case None => None
        case Some(author) => if receipt.signature.value.author == author then Some(SIGNED) else None
  }

  /**
   For receipts that executions published, a query answers exactly while the bound files match, the
   reviewer's signing key was reported in full, and a signature covers the artifact as it is now.
   */
  lemma ReportExact(cfg: Config, run: Run, n: nat)
    requires ValidRun(cfg, run) && n < |run.states| && run.states[n].files.receipt.Some?
    ensures var f := run.states[n].files;
            && f.request.Some?
            && (ReportedStatus(cfg, f).Some? <==>
                  && FullFingerprint(f.receipt.value.reviewer.signing)
                  && Unchanged(cfg, f.artifact, f.request.value.artifact)
                  && Unchanged(cfg, f.evidence, f.request.value.evidence)
                  && (f.receipt.value.status == SIGNED ==>
                      f.signature.Some? && f.signature.value.covers == f.artifact.value))
            && (ReportedStatus(cfg, f).Some? ==> ReportedStatus(cfg, f).value == f.receipt.value.status)
  {
    hide FullFingerprint, ExecOk, RunsOk;
    RunInv(cfg, run, n);
    var f := run.states[n].files;
    var receipt := f.receipt.value;
    var signature :| receipt == MakeReceipt(cfg, f, receipt.status, receipt.reviewer, signature);
    if f.signature.Some? {
      assert Matches(f.signature.value.author.primary, f.request.value.signer) ==>
          f.request.value.signer in {f.request.value.signer};
    }
  }

  /**
   The bound-file check is all an execution knows: if the artifact changes after it, a signature over
   the changed bytes is published. A later query then reports nothing until the artifact is restored.
   */
  lemma ChangeAfterCheck(cfg: Config, s: Sys, changed: string, signature: Signed<string>)
    requires Inv(cfg, s) && s.exec.Checked? && s.files.signature.None?
    requires !Unchanged(cfg, Some(changed), s.files.request.value.artifact)
    requires signature.covers == changed && Matches(signature.author.primary, s.files.request.value.signer)
    ensures var a := Next(cfg, s, ChangeArtifact(Some(changed)));
            && Enabled(cfg, a, Sign(Some(signature), true))
            && var b := Next(cfg, a, Sign(Some(signature), true));
            && Enabled(cfg, b, Verify)
            && var c := Next(cfg, b, Verify);
            && Enabled(cfg, c, Publish)
            && var d := Next(cfg, c, Publish);
            && d.files.receipt.Some? && d.files.receipt.value.status == SIGNED && ReportedStatus(cfg, d.files).None?
  {
    hide FullFingerprint, Binds, ReceiptOk, RunsOk;
  }

  // ---------------------------------------------------------------- the service

  /** An execution that nothing interrupts, as a composition of its steps. */
  function ExecuteAlone(cfg: Config, s: Sys, output: Option<Signed<string>>, accepted: bool): Sys
    requires s.exec.Idle?
  {
    var a := StepStart(cfg, s);
    if !a.exec.Authenticated? then a
    else if a.files.decision.value.decision.verdict == "deny" then
      WriteReceipt(a, MakeReceipt(cfg, a.files, DENIED, a.exec.reviewer, None))
    else
      var b := StepCheck(cfg, a);
      if b.exec.Checked? then SignAlone(cfg, b, output, accepted) else b
  }

  /** What an uninterrupted execution needs to publish a denial, or a signature. */
  ghost predicate PublishesDenial(cfg: Config, s: Sys) {
    && InTime(s) && (exists reviewer :: Authentic(cfg, s.files, reviewer))
    && s.files.decision.value.decision.verdict == "deny"
  }

  ghost predicate PublishesSignature(cfg: Config, s: Sys, output: Option<Signed<string>>, accepted: bool) {
    && InTime(s) && (exists reviewer :: Authentic(cfg, s.files, reviewer))
    && s.files.decision.value.decision.verdict == "approve"
    && Unchanged(cfg, s.files.artifact, s.files.request.value.artifact)
    && Unchanged(cfg, s.files.evidence, s.files.request.value.evidence)
    && GoodSignature(s.files, output, accepted)
  }

  /** The signature on file, or else the one the signer makes, covers the artifact and names the signer. */
  ghost predicate GoodSignature(f: Files, output: Option<Signed<string>>, accepted: bool)
    requires f.request.Some?
  {
    && (f.signature.Some? || (accepted && output.Some?))
    && var signature := if f.signature.Some? then f.signature else output;
    && Some(signature.value.covers) == f.artifact
    && Matches(signature.value.author.primary, f.request.value.signer)
  }

  /**
   Exactly when an uninterrupted execution publishes what: a denial for an authentic denial, a signature
   for an authentic approval of unchanged files whose signature verifies, and in both cases only in time.
   Otherwise it publishes nothing, and the signer has run only for an approval that was in time.
   */
  lemma ExecutePublishesIff(cfg: Config, s: Sys, output: Option<Signed<string>>, accepted: bool)
    requires s.exec.Idle? && s.files.receipt.None?
    ensures var t := ExecuteAlone(cfg, s, output, accepted);
            && (t.files.receipt.Some? && t.files.receipt.value.status == DENIED <==> PublishesDenial(cfg, s))
            && (t.files.receipt.Some? && t.files.receipt.value.status == SIGNED <==>
                  PublishesSignature(cfg, s, output, accepted))
            && (t.signerRuns != s.signerRuns <==>
                  && InTime(s) && s.files.signature.None? && (exists reviewer :: Approved(cfg, s.files, reviewer))
                  && Unchanged(cfg, s.files.artifact, s.files.request.value.artifact)
                  && Unchanged(cfg, s.files.evidence, s.files.request.value.evidence))
  {
    var f := s.files;
    if reviewer :| Authentic(cfg, f, reviewer) {
      assert Authenticate(cfg, s) == if s.clock < f.request.value.expiresAt then Some(reviewer) else None;
      if f.decision.value.decision.verdict != "deny" { assert Approved(cfg, f, reviewer); }
      if InTime(s) {
        var b := StepCheck(cfg, StepStart(cfg, s));
        if b.exec.Checked? { SignAlonePublishesIff(cfg, b, output, accepted); }
      }
    } else {
      NotAuthentic(cfg, s);
    }
    hide FullFingerprint, Binds, MakeReceipt, Unchanged, SignAlone, GoodSignature, Authenticate;
  }

  /** After a check that passed, the signer runs unless a signature is there, and a good signature is published. */
  lemma SignAlonePublishesIff(cfg: Config, b: Sys, output: Option<Signed<string>>, accepted: bool)
    requires b.exec.Checked? && b.files.request.Some? && b.files.decision.Some? && b.files.receipt.None?
    ensures var t := SignAlone(cfg, b, output, accepted);
            && (t.files.receipt.Some? ==> t.files.receipt.value.status == SIGNED)
            && (t.files.receipt.Some? <==> GoodSignature(b.files, output, accepted))
            && (t.signerRuns != b.signerRuns <==> b.files.signature.None?)
  {
    if b.files.signature.None? { assert |b.signerRuns + [output]| == |b.signerRuns| + 1; }
    var signer := b.files.request.value.signer;
    assert signer in {signer};
    hide MakeReceipt;
  }

  lemma NotAuthentic(cfg: Config, s: Sys)
    requires forall reviewer :: !Authentic(cfg, s.files, reviewer)
    ensures Authenticate(cfg, s).None?
  {
    if Authenticate(cfg, s).Some? { assert !Authentic(cfg, s.files, Authenticate(cfg, s).value); }
  }

  /** At or after its expiry a request can no longer be executed at all. */
  lemma ExpiredChangesNothing(cfg: Config, s: Sys, output: Option<Signed<string>>, accepted: bool)
    requires s.exec.Idle? && s.files.request.Some? && s.files.request.value.expiresAt <= s.clock
    ensures Next(cfg, s, Start) == s && ExecuteAlone(cfg, s, output, accepted) == s
  {
  }

  function Perform(cfg: Config, s: Sys, steps: seq<Step>): Sys
    requires Performable(cfg, s, steps)
    decreases |steps|
  {
    if steps == [] then s else Perform(cfg, Next(cfg, s, steps[0]), steps[1..])
  }

  predicate Performable(cfg: Config, s: Sys, steps: seq<Step>)
    decreases |steps|
  {
    steps == [] || (Enabled(cfg, s, steps[0]) && Performable(cfg, Next(cfg, s, steps[0]), steps[1..]))
  }

  lemma PerformNothing(cfg: Config, s: Sys)
    ensures Performable(cfg, s, []) && Perform(cfg, s, []) == s
  {
  }

  lemma PerformFirst(cfg: Config, s: Sys, step: Step, rest: seq<Step>)
    requires Enabled(cfg, s, step) && Performable(cfg, Next(cfg, s, step), rest)
    ensures Performable(cfg, s, [step] + rest)
    ensures Perform(cfg, s, [step] + rest) == Perform(cfg, Next(cfg, s, step), rest)
  {
    hide Next, Enabled;
    assert ([step] + rest)[1..] == rest;
  }

  /** The part of an execution after a bound-file check that passed. */
  function SignAlone(cfg: Config, b: Sys, output: Option<Signed<string>>, accepted: bool): Sys
    requires b.exec.Checked? && b.files.request.Some? && b.files.decision.Some?
  {
    var c := StepSign(b, output, accepted);
    if !c.exec.HasSignature? then c
    else
      var d := StepVerify(c);
      if d.exec.Verified? then StepPublish(cfg, d) else d
  }

  lemma SignIsSteps(cfg: Config, b: Sys, output: Option<Signed<string>>, accepted: bool) returns (steps: seq<Step>)
    requires b.exec.Checked? && b.files.request.Some? && b.files.decision.Some?
    ensures Performable(cfg, b, steps) && Perform(cfg, b, steps) == SignAlone(cfg, b, output, accepted)
  {
    hide MakeReceipt, VerifySignature, WriteReceipt, Perform, Performable;
    var c := Next(cfg, b, Sign(output, accepted));
    PerformNothing(cfg, c);
    steps := [];
    if c.exec.HasSignature? {
      var d := Next(cfg, c, Verify);
      PerformNothing(cfg, d);
      if d.exec.Verified? {
        PerformNothing(cfg, Next(cfg, d, Publish));
        PerformFirst(cfg, d, Publish, steps);
        steps := [Publish] + steps;
      }
      PerformFirst(cfg, c, Verify, steps);
      steps := [Verify] + steps;
    }
    PerformFirst(cfg, b, Sign(output, accepted), steps);
    steps := [Sign(output, accepted)] + steps;
  }

  /** So every uninterrupted execution is part of some run, and all run theorems apply to it. */
  lemma ExecuteIsSteps(cfg: Config, s: Sys, output: Option<Signed<string>>, accepted: bool) returns (steps: seq<Step>)
    requires s.exec.Idle?
    ensures Performable(cfg, s, steps) && Perform(cfg, s, steps) == ExecuteAlone(cfg, s, output, accepted)
  {
    hide Authenticate, MakeReceipt, Unchanged, VerifySignature, WriteReceipt, Perform, Performable, StepSign,
        StepVerify, StepPublish, SignAlone;
    var a := Next(cfg, s, Start);
    PerformNothing(cfg, a);
    steps := [];
    if a.exec.Authenticated? {
      StartAuthenticates(cfg, s);
      if a.files.decision.value.decision.verdict == "deny" {
        PerformNothing(cfg, Next(cfg, a, Deny));
        PerformFirst(cfg, a, Deny, steps);
        steps := [Deny] + steps;
      } else {
        var b := Next(cfg, a, CheckFiles);
        PerformNothing(cfg, b);
        if b.exec.Checked? {
          steps := SignIsSteps(cfg, b, output, accepted);
        }
        PerformFirst(cfg, a, CheckFiles, steps);
        steps := [CheckFiles] + steps;
      }
    }
    PerformFirst(cfg, s, Start, steps);
    steps := [Start] + steps;
  }

  lemma StartAuthenticates(cfg: Config, s: Sys)
    requires s.exec.Idle? && StepStart(cfg, s).exec.Authenticated?
    ensures s.files.request.Some? && s.files.decision.Some? && s.files.receipt.None?
    ensures StepStart(cfg, s).files == s.files
  {
  }

  /** One request directory with its bound files, as `execute` and `status` see it under the lock. */
  class ApprovalService {
    const cfg: Config
    var files: Files
    var clock: int
    var signerRuns: seq<Option<Signed<string>>>
    var seen: Option<Seen>

    function Contents(): Sys
      reads this
    {
      Sys(files, Idle, clock, signerRuns, seen)
    }

    constructor (cfg: Config, clock: int, artifact: Option<string>, evidence: Option<string>)
      ensures this.cfg == cfg && Contents() == Init(clock, artifact, evidence)
    {
      this.cfg := cfg;
      this.clock := clock;
      files := Files(None, None, None, None, artifact, evidence);
      signerRuns := [];
      seen := None;
    }

    /** An exclusive create. */
    method WriteOnce(receipt: Receipt) returns (written: bool)
      modifies this`files
      ensures written == old(files).receipt.None?
      ensures files == if written then old(files).(receipt := Some(receipt)) else old(files)
    {
      written := files.receipt.None?;
      if written {
        files := files.(receipt := Some(receipt));
      }
    }

    method Status() returns (status: Option<Status>)
      ensures status == ReportedStatus(cfg, files)
    {
      status := ReportedStatus(cfg, files);
    }

    /** `execute`; `output` and `accepted` say what the protected signer does if it is run. */
    method Execute(output: Option<Signed<string>>, accepted: bool) returns (status: Option<Status>)
      modifies this
      ensures Contents() == ExecuteAlone(cfg, old(Contents()), output, accepted)
      ensures status == if old(files).receipt.Some? then ReportedStatus(cfg, files)
                        else if files.receipt.Some? then Some(files.receipt.value.status) else None
    {
      hide Matches, FullFingerprint, Binds, VerifySignature, Unchanged, ReportedStatus;
      if files.receipt.Some? {
        status := Status();
        return;
      }
      if files.request.None? || files.request.value.expiresAt <= clock {
        return None;
      }
      var request := files.request.value;
      if files.decision.None? || !Binds(cfg, files.decision.value.decision, request) {
        return None;
      }
      var decision := files.decision.value.decision;
      var reviewer := VerifySignature(decision, files.decision.value.signature, cfg.reviewers, request.reviewer);
      if reviewer.None? {
        return None;
      }
      if decision.verdict == "deny" {
        var written := WriteOnce(MakeReceipt(cfg, files, DENIED, reviewer.value, None));
        return Some(DENIED);
      }
      if !Unchanged(cfg, files.artifact, request.artifact) || !Unchanged(cfg, files.evidence, request.evidence) {
        return None;
      }
      assert files.artifact.Some? && files.evidence.Some? by {
        UnchangedExists(cfg, files.artifact, request.artifact);
        UnchangedExists(cfg, files.evidence, request.evidence);
      }
      var checked, evidence := files.artifact.value, files.evidence.value;
      if files.signature.None? {
        files := files.(signature := output);
        signerRuns := signerRuns + [output];
        if !accepted || output.None? {
          return None;
        }
      }
      var signature := files.signature.value;
      if VerifySignature(files.artifact.value, signature, {request.signer}, request.signer).None? {
        return None;
      }
      var binding := SignatureBinding(request.destination, cfg.signatureSha(signature), signature.author);
      var written := WriteOnce(MakeReceipt(cfg, files, SIGNED, reviewer.value, Some(binding)));
      seen := Some(Seen(checked, evidence, files.artifact.value));
      return Some(SIGNED);
    }
  }

  lemma UnchangedExists(cfg: Config, file: Option<string>, b: Binding)
    requires Unchanged(cfg, file, b)
    ensures file.Some?
  {
  }
}

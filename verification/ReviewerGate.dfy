/**
 * The reviewer gate of autodev/pipeline/gate_scripts/reviewer_gate.py: the contract checks, the
 * rejection rule, the blocking issues it adds to the reviewer's output, and the routing.
 */
module ReviewerGate {
  import opened Json

  type Output = map<string, J>

  /** The keys of a dictionary in the order of the file, which here matters for an empty one only. */
  type KeyOrder = f: Output -> seq<string> | forall m: Output :: f(m) == [] <==> m == map[]
    witness (m: Output) => if m == map[] then [] else [""]

  /** What the gate reads beside the reviewer's output; `show` is Python's `str()`. */
  datatype World = World(
    artifactsMissing: bool, visual: bool, retries: int, escapes: string -> bool, present: string -> bool,
    show: J -> string, keys: KeyOrder)

  /** `Crash` is an exception out of the gate. */
  datatype Verdict =
    | MissingArtifacts | ContractFailure | VisualUnverified | BehavioralUnverified | RegressionUnverified
    | RouteExecutor | RoutePlanner | RouteEscalate | Pass | Crash

  datatype Code =
    | ErrMissingArtifacts | ErrContract | ErrVisual | ErrBehavioral | ErrRegressionUnverified
    | ErrRegressionPriorPhase | ErrValidationFailed

  /** The verdict, the recorded error code, and the output file afterwards. */
  datatype Outcome = Outcome(verdict: Verdict, code: Option<Code>, data: Option<Output>)

  const ISSUES := "blocking_issues"
  const PATH := "file_or_screenshot_or_log"
  const REGRESSION := Str("regression_prior_phase")

  /** `m.get(key)`. */
  function Get(m: Output, key: string): J {
    if key in m then m[key] else Null
  }

  /** The fields of a dict, and none of anything else. */
  function Fields(j: J): Output {
    if j.Obj? then j.fields else map[]
  }

  /** `block.get(key) or []`, as a list when it is one. */
  function ListOf(j: J): Option<seq<J>> {
    if !Truthy(j) then Some([]) else if j.Arr? then Some(j.items) else None
  }

  predicate IsVerdict(j: J) {
    j in {Str("pass"), Str("fail"), Str("cannot_verify")}
  }

  predicate Rejects(verdict: J) {
    verdict in {Str("fail"), Str("cannot_verify")}
  }

  /** Everything the gate reads of the reviewer's output but the issues. */
  datatype Report = Report(visual: J, artifacts: J, behavioral: J, regression: J, tests: J)

  function ReportOf(data: Output): Report {
    Report(Get(data, "visual_verification"), Get(data, "visual_smoke_artifacts"), Get(data, "behavioral_verification"),
           Get(data, "regression_verification"), Get(data, "integration_tests_passing"))
  }

  // ---------------------------------------------------------------------------------------
  // The contract checks
  // ---------------------------------------------------------------------------------------

  predicate EscapesWorkspace(w: World, path: J) {
    path.Str? && path.s != "" && w.escapes(path.s)
  }

  predicate OnDisk(w: World, path: J) {
    path.Str? && !EscapesWorkspace(w, path) && w.present(path.s)
  }

  /** An evidence entry: an object with a claim, a method and a file inside the workspace. */
  predicate Anchored(w: World, entry: J) {
    && entry.Obj?
    && Truthy(Get(entry.fields, "claim")) && Truthy(Get(entry.fields, PATH)) && Truthy(Get(entry.fields, "method"))
    && OnDisk(w, Get(entry.fields, PATH))
  }

  predicate EnoughEvidence(w: World, evidence: J) {
    && ListOf(evidence).Some? && |ListOf(evidence).value| >= 3
    && forall i | 0 <= i < |ListOf(evidence).value| :: Anchored(w, ListOf(evidence).value[i])
  }

  predicate BehavioralShape(w: World, block: J) {
    && block.Obj? && IsVerdict(Get(block.fields, "verdict")) && Get(block.fields, "how_to_check_followed").Bool?
    && (Get(block.fields, "verdict") == Str("pass") ==> EnoughEvidence(w, Get(block.fields, "evidence")))
  }

  predicate RegressionShape(w: World, phase: J, block: J) {
    && block.Obj? && IsVerdict(Get(block.fields, "verdict"))
    && LooseEq(Get(block.fields, "prior_phase_raw_id"), Get(Fields(phase), "prior_phase_raw_id"))
    && Get(block.fields, "prior_phase_how_to_check_followed").Bool?
    && (Get(block.fields, "verdict") == Str("pass") && Get(block.fields, "prior_phase_how_to_check_followed").b ==>
          EnoughEvidence(w, Get(block.fields, "evidence")))
  }

  /** An artifact the reviewer looked at: an object with the path of a file inside the workspace. */
  predicate Inspected(w: World, artifact: J) {
    artifact.Obj? && Truthy(Get(artifact.fields, "path")) && OnDisk(w, Get(artifact.fields, "path"))
  }

  predicate VisualShape(w: World, verdict: J, artifacts: J) {
    && IsVerdict(verdict)
    && (verdict == Str("pass") ==>
          && ListOf(artifacts).Some? && ListOf(artifacts).value != []
          && forall i | 0 <= i < |ListOf(artifacts).value| :: Inspected(w, ListOf(artifacts).value[i]))
  }

  predicate HasBehavioralBlock(phase: J) {
    var block := Get(Fields(phase), "behavioral_verification");
    && block.Obj? && Truthy(Get(block.fields, "user_observable")) && Truthy(Get(block.fields, "how_to_check"))
    && Truthy(Get(block.fields, "failure_language"))
  }

  predicate NeedsRegression(phase: J) {
    Truthy(Get(Fields(phase), "prior_phase_raw_id")) && Truthy(Get(Fields(phase), "prior_phase_how_to_check"))
  }

  /** The first contract failure, in the order of the checks. */
  function Unfit(w: World, phase: J, r: Report): Option<(Verdict, Code)> {
    if w.artifactsMissing then Some((MissingArtifacts, ErrMissingArtifacts))
    else if w.visual && !VisualShape(w, r.visual, r.artifacts) then Some((VisualUnverified, ErrVisual))
    else if HasBehavioralBlock(phase) && !BehavioralShape(w, r.behavioral) then
      Some((BehavioralUnverified, ErrBehavioral))
    else if NeedsRegression(phase) && !RegressionShape(w, phase, r.regression) then
      Some((RegressionUnverified, ErrRegressionUnverified))
    else None
  }

  // ---------------------------------------------------------------------------------------
  // The rejection rule
  // ---------------------------------------------------------------------------------------

  /** What a loop over a value runs through: elements, characters or keys; `None` where it raises. */
  function Elements(w: World, j: J): Option<seq<J>> {
    match j
    case Arr(items) => Some(items)
    case Str(s) => Some(seq(|s|, i requires 0 <= i < |s| => Str([s[i]])))
    case Obj(fields) =>
      var keys := w.keys(fields);
      Some(seq(|keys|, i requires 0 <= i < |keys| => Str(keys[i])))
    case _ => None
  }

  /** `data.get("blocking_issues") or []`, looped over. */
  function Listed(w: World, data: Output): Option<seq<J>> {
    if !Truthy(Get(data, ISSUES)) then Some([]) else Elements(w, Get(data, ISSUES))
  }

  function Issues(w: World, data: Output): seq<J> {
    if Listed(w, data).Some? then Listed(w, data).value else []
  }

  /** `len(blocking_issues)` raises. */
  predicate Uncountable(data: Output) {
    Get(data, ISSUES).Bool? || IsNumeric(Get(data, ISSUES))
  }

  lemma CountedIssues(w: World, data: Output)
    requires !Uncountable(data)
    ensures Listed(w, data).Some? && (Issues(w, data) == [] <==> !Truthy(Get(data, ISSUES)))
  {
  }

  predicate VisualRejection(w: World, r: Report) {
    w.visual && Rejects(r.visual)
  }

  predicate BehavioralRejection(phase: J, r: Report) {
    HasBehavioralBlock(phase) && Rejects(Get(Fields(r.behavioral), "verdict"))
  }

  predicate RegressionFailed(block: Output) {
    Rejects(Get(block, "verdict")) || Get(block, "prior_phase_how_to_check_followed") == Bool(false)
  }

  predicate RegressionRejection(phase: J, r: Report) {
    NeedsRegression(phase) && RegressionFailed(Fields(r.regression))
  }

  predicate Rejected(w: World, phase: J, r: Report, issues: seq<J>) {
    || issues != [] || !Truthy(r.tests)
    || VisualRejection(w, r) || BehavioralRejection(phase, r) || RegressionRejection(phase, r)
  }

  predicate OnlyRegression(w: World, phase: J, r: Report, issues: seq<J>) {
    && RegressionRejection(phase, r) && !BehavioralRejection(phase, r) && !VisualRejection(w, r)
    && issues == [] && Truthy(r.tests)
  }

  // ---------------------------------------------------------------------------------------
  // The added issues
  // ---------------------------------------------------------------------------------------

  /** The path, blanked when it leaves the workspace. */
  function Bounded(w: World, path: J): J {
    if EscapesWorkspace(w, path) then Str("") else path
  }

  function Decimal(n: nat): string {
    var digit := ['0' + (n % 10) as char];
    if n < 10 then digit else Decimal(n / 10) + digit
  }

  /** `entry.get(key, "")`: an explicit null stays null. */
  function GetOr(m: Output, key: string): J {
    if key in m then m[key] else Str("")
  }

  function Issue(description: J, path: J, source: J, id: J): J {
    Obj(map["description" := description, "attribution" := Str("impl"), "affected_file" := path,
            "criterion_source" := source, "criterion_id" := id])
  }

  function EvidenceIssue(claim: J, path: J, i: nat): J {
    Issue(claim, path, Str("behavioral"), Str("behavioral_evidence[" + Decimal(i) + "]"))
  }

  /** One issue for each evidence object, numbered by its place. */
  function FromEvidence(w: World, evidence: seq<J>): seq<J> {
    if evidence == [] then []
    else
      var i := |evidence| - 1;
      FromEvidence(w, evidence[..i]) +
      if !evidence[i].Obj? then []
      else
        var entry := evidence[i].fields;
        [EvidenceIssue(GetOr(entry, "claim"), Bounded(w, GetOr(entry, PATH)), i)]
  }

  /** The behavioural synthesiser: it fills in an empty list, and leaves any other value alone. */
  function WithBehavioral(w: World, data: Output): Output {
    var block := Fields(ReportOf(data).behavioral);
    var evidence := ListOf(Get(block, "evidence"));
    if !Rejects(Get(block, "verdict")) || Truthy(Get(data, ISSUES)) || evidence.None? || evidence.value == [] then data
    else data[ISSUES := Arr(FromEvidence(w, evidence.value))]
  }

  predicate IsRegressionIssue(j: J) {
    j.Obj? && Get(j.fields, "criterion_source") == REGRESSION
  }

  predicate HasRegressionIssue(issues: seq<J>) {
    exists i | 0 <= i < |issues| :: IsRegressionIssue(issues[i])
  }

  /** `current_phase.get("prior_phase_raw_id") or ""`. */
  function OrEmpty(j: J): J {
    if Truthy(j) then j else Str("")
  }

  function RegressionText(w: World, prior: J, block: Output): string {
    var summary := Get(block, "failure_summary");
    if Truthy(summary) then w.show(summary)
    else if Get(block, "prior_phase_how_to_check_followed") == Bool(false)
      then "Prior phase " + w.show(prior) + " how_to_check recipe was not executed"
    else if Get(block, "verdict") == Str("cannot_verify") then "Prior phase regression check could not verify"
    else "Prior phase " + w.show(prior) + " how_to_check regressed"
  }

  function RegressionIssue(w: World, phase: J, block: Output): J {
    var prior := OrEmpty(Get(Fields(phase), "prior_phase_raw_id"));
    var evidence := ListOf(Get(block, "evidence"));
    var path :=
      if evidence.Some? && evidence.value != [] && evidence.value[0].Obj?
      then Bounded(w, OrEmpty(Get(evidence.value[0].fields, PATH))) else Str("");
    Issue(Str(RegressionText(w, prior, block)), path, REGRESSION, prior)
  }

  /** The regression synthesiser: one issue at the end, unless one of its kind is there. */
  function WithRegression(w: World, phase: J, data: Output): Output {
    var block := Fields(ReportOf(data).regression);
    if !RegressionFailed(block) || HasRegressionIssue(Issues(w, data)) then data
    else data[ISSUES := Arr(Issues(w, data) + [RegressionIssue(w, phase, block)])]
  }

  function Filled(w: World, phase: J, data: Output): Output {
    if BehavioralRejection(phase, ReportOf(data)) then WithBehavioral(w, data) else data
  }

  function Augmented(w: World, phase: J, data: Output): Output {
    var filled := Filled(w, phase, data);
    if RegressionRejection(phase, ReportOf(data)) then WithRegression(w, phase, filled) else filled
  }

  // ---------------------------------------------------------------------------------------
  // Routing and the gate
  // ---------------------------------------------------------------------------------------

  predicate BlamesPlan(j: J) {
    Get(Fields(j), "attribution") == Str("plan")
  }

  predicate AnyBlamesPlan(issues: seq<J>) {
    exists i | 0 <= i < |issues| :: BlamesPlan(issues[i])
  }

  function Route(w: World, data: Output): Verdict {
    if w.retries == 0 then RouteExecutor
    else if w.retries == 1 then
      if Listed(w, data).None? then Crash
      else if AnyBlamesPlan(Issues(w, data)) then RoutePlanner
      else RouteExecutor
    else RouteEscalate
  }

  function CodeOf(w: World, phase: J, r: Report, issues: seq<J>): Code {
    if OnlyRegression(w, phase, r, issues) then ErrRegressionPriorPhase else ErrValidationFailed
  }

  function Evaluate(w: World, phase: J, data: Output): Outcome {
    var r := ReportOf(data);
    var unfit := Unfit(w, phase, r);
    if unfit.Some? then Outcome(unfit.value.0, Some(unfit.value.1), Some(data))
    else if Uncountable(data) then Outcome(Crash, None, Some(data))
    else if !Rejected(w, phase, r, Issues(w, data)) then Outcome(Pass, None, Some(data))
    else
      var after := Augmented(w, phase, data);
      Outcome(Route(w, after), Some(CodeOf(w, phase, r, Issues(w, data))), Some(after))
  }

  /** The parsed output, absent when the file is missing or malformed. */
  function EvaluateFile(w: World, phase: J, file: Option<Output>): Outcome {
    if file.Some? then Evaluate(w, phase, file.value)
    else if w.artifactsMissing then Outcome(MissingArtifacts, Some(ErrMissingArtifacts), None)
    else Outcome(ContractFailure, Some(ErrContract), None)
  }

  /** The reviewer's output, which the gate loads, changes in place and writes back. */
  class ReviewerOutput {
    var file: Option<Output>
    var data: Output

    method SynthesizeBehavioralBlockingIssues(w: World)
      modifies this`data
      ensures data == WithBehavioral(w, old(data))
    {
      var block := Fields(ReportOf(data).behavioral);
      if !Rejects(Get(block, "verdict")) { return; }
      if Truthy(Get(data, ISSUES)) { return; }
      var evidence := ListOf(Get(block, "evidence"));
      if evidence.None? || evidence.value == [] { return; }
      var synthesised := ListEvidence(w, evidence.value);
      data := data[ISSUES := Arr(synthesised)];
    }

    /** The loop over the evidence. */
    method ListEvidence(w: World, evidence: seq<J>) returns (synthesised: seq<J>)
      ensures synthesised == FromEvidence(w, evidence)
    {
      synthesised := [];
      var i := 0;
      while i < |evidence|
        invariant 0 <= i <= |evidence|
        invariant synthesised == FromEvidence(w, evidence[..i])
      {
        assert evidence[..i + 1][..i] == evidence[..i];
        if evidence[i].Obj? {
          var entry := evidence[i].fields;
          var path := GetOr(entry, PATH);
          var affected := if EscapesWorkspace(w, path) then Str("") else path;
          synthesised := synthesised + [EvidenceIssue(GetOr(entry, "claim"), affected, i)];
        }
        i := i + 1;
      }
      assert evidence[..i] == evidence;
    }

    /** The regression issue at the end; the loop raises on a number or `true`, and nothing changes. */
    method SynthesizeRegressionBlockingIssue(w: World, phase: J) returns (ok: bool)
      modifies this`data
      ensures ok <==> !RegressionFailed(Fields(ReportOf(old(data)).regression)) || Listed(w, old(data)).Some?
      ensures data == if ok then WithRegression(w, phase, old(data)) else old(data)
    {
      var block := Fields(ReportOf(data).regression);
      if !RegressionFailed(block) { return true; }
      var existing := Listed(w, data);
      if existing.None? { return false; }
      var present := FindRegressionIssue(existing.value);
      if !present { data := data[ISSUES := Arr(existing.value + [RegressionIssue(w, phase, block)])]; }
      ok := true;
    }

    method FindRegressionIssue(existing: seq<J>) returns (present: bool)
      ensures present <==> HasRegressionIssue(existing)
    {
      var i := 0;
      while i < |existing|
        invariant 0 <= i <= |existing|
        invariant forall k | 0 <= k < i :: !IsRegressionIssue(existing[k])
      {
        if IsRegressionIssue(existing[i]) { return true; }
        i := i + 1;
      }
      present := false;
    }

    method ApplyReviewerRouting(w: World) returns (route: Verdict)
      ensures route == Route(w, data)
    {
      var passNumber := w.retries + 1;
      if passNumber == 1 { return RouteExecutor; }
      if passNumber != 2 { return RouteEscalate; }
      var issues := Listed(w, data);
      if issues.None? { return Crash; }
      var i := 0;
      while i < |issues.value|
        invariant 0 <= i <= |issues.value| && forall k | 0 <= k < i :: !BlamesPlan(issues.value[k])
      {
        if BlamesPlan(issues.value[i]) { return RoutePlanner; }
        i := i + 1;
      }
      route := RouteExecutor;
    }

    /** The contract checks one after the other. */
    method CheckContract(w: World, phase: J) returns (unfit: Option<(Verdict, Code)>)
      requires !w.artifactsMissing
      ensures unfit == Unfit(w, phase, ReportOf(data))
    {
      var r := ReportOf(data);
      if w.visual {
        if !VisualShape(w, r.visual, r.artifacts) { return Some((VisualUnverified, ErrVisual)); }
      }
      if HasBehavioralBlock(phase) {
        if !BehavioralShape(w, r.behavioral) { return Some((BehavioralUnverified, ErrBehavioral)); }
      }
      if NeedsRegression(phase) {
        if !RegressionShape(w, phase, r.regression) { return Some((RegressionUnverified, ErrRegressionUnverified)); }
      }
      unfit := None;
    }

    /** The additions of a rejected output, written back if there were any. */
    method Augment(w: World, phase: J)
      requires !Uncountable(data) && file == Some(data)
      modifies this
      ensures data == Augmented(w, phase, old(data)) && file == Some(data)
    {
      var r := ReportOf(data);
      var behavioral, regression := BehavioralRejection(phase, r), RegressionRejection(phase, r);
      if behavioral { SynthesizeBehavioralBlockingIssues(w); }
      ReportKept(w, phase, old(data));
      CountedIssues(w, data);
      if regression { var ok := SynthesizeRegressionBlockingIssue(w, phase); }
      if behavioral || regression { file := Some(data); }
    }

    method EvaluateReviewer(w: World, phase: J) returns (verdict: Verdict, code: Option<Code>)
      modifies this
      ensures Outcome(verdict, code, file) == EvaluateFile(w, phase, old(file))
    {
      if w.artifactsMissing { return MissingArtifacts, Some(ErrMissingArtifacts); }
      if file.None? { return ContractFailure, Some(ErrContract); }
      data := file.value;
      var unfit := CheckContract(w, phase);
      if unfit.Some? { return unfit.value.0, Some(unfit.value.1); }
      if Get(data, ISSUES).Bool? || IsNumeric(Get(data, ISSUES)) { return Crash, None; }
      var r, issues := ReportOf(data), Issues(w, data);
      if !Rejected(w, phase, r, issues) { return Pass, None; }
      code := Some(CodeOf(w, phase, r, issues));
      Augment(w, phase);
      verdict := ApplyReviewerRouting(w);
    }
  }

  // ---------------------------------------------------------------------------------------
  // What the write-back keeps
  // ---------------------------------------------------------------------------------------

  /** Two outputs that differ in their issues at most. */
  predicate SameButIssues(a: Output, b: Output) {
    && (forall k | k in a && k != ISSUES :: k in b && b[k] == a[k])
    && (forall k | k in b && k != ISSUES :: k in a)
  }

  lemma SameReads(a: Output, b: Output, key: string)
    requires SameButIssues(a, b) && key != ISSUES
    ensures Get(a, key) == Get(b, key)
  {
  }

  /** Every check and rejection but the issue count looks past the issues. */
  lemma ReportBlindToIssues(a: Output, b: Output)
    requires SameButIssues(a, b)
    ensures ReportOf(a) == ReportOf(b)
  {
    SameReads(a, b, "visual_verification");
    SameReads(a, b, "visual_smoke_artifacts");
    SameReads(a, b, "behavioral_verification");
    SameReads(a, b, "regression_verification");
    SameReads(a, b, "integration_tests_passing");
  }

  lemma NewIssues(w: World, data: Output, issues: seq<J>)
    ensures var after := data[ISSUES := Arr(issues)];
            && SameButIssues(data, after) && !Uncountable(after) && ReportOf(after) == ReportOf(data)
            && Issues(w, after) == issues
  {
    ReportBlindToIssues(data, data[ISSUES := Arr(issues)]);
  }

  lemma ReportKept(w: World, phase: J, data: Output)
    requires !Uncountable(data)
    ensures var filled := Filled(w, phase, data);
            ReportOf(filled) == ReportOf(data) && !Uncountable(filled) && SameButIssues(data, filled)
  {
    var evidence := ListOf(Get(Fields(ReportOf(data).behavioral), "evidence"));
    if evidence.Some? { NewIssues(w, data, FromEvidence(w, evidence.value)); }
  }

  predicate Harmless(w: World, j: J) {
    j.Obj? && Get(j.fields, "attribution") == Str("impl") && !EscapesWorkspace(w, Get(j.fields, "affected_file"))
  }

  predicate IsBehavioralIssue(w: World, j: J) {
    Harmless(w, j) && Get(j.fields, "criterion_source") == Str("behavioral")
  }

  lemma {:induction false} EvidenceIssues(w: World, evidence: seq<J>)
    ensures forall i | 0 <= i < |FromEvidence(w, evidence)| :: IsBehavioralIssue(w, FromEvidence(w, evidence)[i])
    decreases |evidence|
  {
    if evidence != [] { EvidenceIssues(w, evidence[..|evidence| - 1]); }
  }

  /** What stands under the path of an evidence object, blank if it is missing or leaves the workspace. */
  function SafePath(w: World, entry: J): J
    requires entry.Obj?
  {
    if "file_or_screenshot_or_log" !in entry.fields then Str("")
    else
      var path := entry.fields["file_or_screenshot_or_log"];
      if path.Str? && path.s != "" && w.escapes(path.s) then Str("") else path
  }

  function Objects(evidence: seq<J>): nat {
    if evidence == [] then 0 else Objects(evidence[..|evidence| - 1]) + if evidence[|evidence| - 1].Obj? then 1 else 0
  }

  lemma {:induction false} EntryListed(w: World, evidence: seq<J>, i: nat)
    requires i < |evidence|
    ensures |FromEvidence(w, evidence)| == Objects(evidence) && Objects(evidence[..i]) <= Objects(evidence)
    ensures evidence[i].Obj? ==>
              var n := Objects(evidence[..i]);
              && n < |FromEvidence(w, evidence)|
              && FromEvidence(w, evidence)[n] ==
                   EvidenceIssue(GetOr(evidence[i].fields, "claim"), Bounded(w, GetOr(evidence[i].fields, PATH)), i)
    decreases |evidence|
  {
    var init := evidence[..|evidence| - 1];
    if i < |init| {
      EntryListed(w, init, i);
      assert init[..i] == evidence[..i];
    } else {
      FromEvidenceCount(w, init);
      assert evidence[..i] == init;
    }
  }

  /** The issue of the evidence object at place `i`. */
  predicate NamesEntry(w: World, issue: J, entry: J, i: nat)
    requires entry.Obj?
  {
    && Says(issue, "description", if "claim" in entry.fields then entry.fields["claim"] else Str(""))
    && Says(issue, "affected_file", SafePath(w, entry))
    && Says(issue, "attribution", Str("impl")) && Says(issue, "criterion_source", Str("behavioral"))
    && Says(issue, "criterion_id", Str("behavioral_evidence[" + Decimal(i) + "]"))
  }

  /**
   * Every evidence object gets its issue, in order: the claim as description, the bounded path as
   * file, and the object's own place in the evidence as id. Other entries get none.
   */
  lemma EachClaimListed(w: World, evidence: seq<J>, i: nat)
    requires i < |evidence|
    ensures |FromEvidence(w, evidence)| == Objects(evidence) && Objects(evidence[..i]) <= Objects(evidence)
    ensures evidence[i].Obj? ==>
              var n := Objects(evidence[..i]);
              n < |FromEvidence(w, evidence)| && NamesEntry(w, FromEvidence(w, evidence)[n], evidence[i], i)
  {
    EntryListed(w, evidence, i);
  }

  lemma {:induction false} FromEvidenceCount(w: World, evidence: seq<J>)
    ensures |FromEvidence(w, evidence)| == Objects(evidence)
    decreases |evidence|
  {
    if evidence != [] { FromEvidenceCount(w, evidence[..|evidence| - 1]); }
  }

  /** An issue the gate may add at place `i`: behavioural, to an empty list; or the only regression issue, last. */
  predicate MayAdd(w: World, had: seq<J>, now: seq<J>, i: nat)
    requires i < |now|
  {
    && Harmless(w, now[i])
    && if IsRegressionIssue(now[i]) then i == |now| - 1 && !HasRegressionIssue(now[..i])
       else had == [] && IsBehavioralIssue(w, now[i])
  }

  predicate Extends(w: World, had: seq<J>, now: seq<J>) {
    && had <= now
    && forall i | |had| <= i < |now| :: MayAdd(w, had, now, i)
  }

  lemma FilledExtends(w: World, phase: J, data: Output)
    requires !Uncountable(data)
    ensures var filled := Filled(w, phase, data);
            && Issues(w, data) <= Issues(w, filled) && (Issues(w, data) != [] ==> filled == data)
            && forall i | |Issues(w, data)| <= i < |Issues(w, filled)| :: IsBehavioralIssue(w, Issues(w, filled)[i])
  {
    CountedIssues(w, data);
    var evidence := ListOf(Get(Fields(ReportOf(data).behavioral), "evidence"));
    if evidence.Some? {
      EvidenceIssues(w, evidence.value);
      NewIssues(w, data, FromEvidence(w, evidence.value));
    }
  }

  lemma RegressionHarmless(w: World, phase: J, block: Output)
    ensures Harmless(w, RegressionIssue(w, phase, block)) && IsRegressionIssue(RegressionIssue(w, phase, block))
  {
  }

  /** The second synthesiser leaves its argument, or adds the one issue of its kind. */
  lemma RegressionExtends(w: World, phase: J, data: Output)
    requires !Uncountable(data)
    ensures var after, added := WithRegression(w, phase, data),
              RegressionIssue(w, phase, Fields(ReportOf(data).regression));
            && SameButIssues(data, after) && !Uncountable(after)
            && (after == data || (Issues(w, after) == Issues(w, data) + [added]
                  && !HasRegressionIssue(Issues(w, data))))
  {
    NewIssues(w, data, Issues(w, data) + [RegressionIssue(w, phase, Fields(ReportOf(data).regression))]);
  }

  lemma ExtendsTwice(w: World, had: seq<J>, mid: seq<J>, added: J)
    requires had <= mid && (had != [] ==> mid == had)
    requires forall i | |had| <= i < |mid| :: IsBehavioralIssue(w, mid[i])
    ensures Extends(w, had, mid)
    ensures Harmless(w, added) && IsRegressionIssue(added) && !HasRegressionIssue(mid) ==>
              Extends(w, had, mid + [added])
  {
    assert (mid + [added])[..|mid|] == mid;
  }

  /**
   * What the gate adds: the issues that were there stay, in front and in order; behavioural ones are
   * added only if there were none; a regression one is added last, and only if there is no other. No
   * added issue blames the plan or names a file outside the workspace, and no other key changes.
   */
  lemma IssuesOnlyAppended(w: World, phase: J, data: Output)
    requires !Uncountable(data)
    ensures var after := Augmented(w, phase, data);
            SameButIssues(data, after) && !Uncountable(after) && Extends(w, Issues(w, data), Issues(w, after))
  {
    var filled := Filled(w, phase, data);
    ReportKept(w, phase, data);
    FilledExtends(w, phase, data);
    AugmentedStep(w, phase, data);
    SecondStep(w, phase, data, filled, Augmented(w, phase, data));
  }

  lemma AugmentedStep(w: World, phase: J, data: Output)
    requires !Uncountable(data)
    ensures OneMore(w, phase, Filled(w, phase, data), Augmented(w, phase, data))
  {
    ReportKept(w, phase, data);
    RegressionExtends(w, phase, Filled(w, phase, data));
  }

  /** The second output is the first, or has the one regression issue more. */
  predicate OneMore(w: World, phase: J, a: Output, b: Output) {
    && SameButIssues(a, b) && !Uncountable(b)
    && (a == b || (Issues(w, b) == Issues(w, a) + [RegressionIssue(w, phase, Fields(ReportOf(a).regression))]
                   && !HasRegressionIssue(Issues(w, a))))
  }

  lemma SecondStep(w: World, phase: J, data: Output, filled: Output, after: Output)
    requires SameButIssues(data, filled) && OneMore(w, phase, filled, after)
    requires Issues(w, data) <= Issues(w, filled) && (Issues(w, data) != [] ==> filled == data)
    requires forall i | |Issues(w, data)| <= i < |Issues(w, filled)| :: IsBehavioralIssue(w, Issues(w, filled)[i])
    ensures SameButIssues(data, after) && !Uncountable(after) && Extends(w, Issues(w, data), Issues(w, after))
  {
    SameThrough(data, filled, after);
    ExtendedBy(w, phase, Issues(w, data), Issues(w, filled), Fields(ReportOf(filled).regression));
  }

  lemma ExtendedBy(w: World, phase: J, had: seq<J>, mid: seq<J>, block: Output)
    requires had <= mid && (had != [] ==> mid == had)
    requires forall i | |had| <= i < |mid| :: IsBehavioralIssue(w, mid[i])
    ensures Extends(w, had, mid)
    ensures !HasRegressionIssue(mid) ==> Extends(w, had, mid + [RegressionIssue(w, phase, block)])
  {
    RegressionHarmless(w, phase, block);
    ExtendsTwice(w, had, mid, RegressionIssue(w, phase, block));
  }

  lemma SameThrough(a: Output, b: Output, c: Output)
    requires SameButIssues(a, b) && SameButIssues(b, c)
    ensures SameButIssues(a, c)
  {
  }

  lemma RegressionPresent(w: World, phase: J, data: Output)
    requires !Uncountable(data) && RegressionRejection(phase, ReportOf(data))
    ensures HasRegressionIssue(Issues(w, Augmented(w, phase, data)))
  {
    var filled, after := Filled(w, phase, data), Augmented(w, phase, data);
    ReportKept(w, phase, data);
    RegressionExtends(w, phase, filled);
    RegressionHarmless(w, phase, Fields(ReportOf(filled).regression));
    if !HasRegressionIssue(Issues(w, filled)) {
      assert IsRegressionIssue(Issues(w, after)[|Issues(w, filled)|]);
    }
  }

  /** Filling in twice fills in the same. */
  lemma BehavioralTwice(w: World, data: Output)
    ensures WithBehavioral(w, WithBehavioral(w, data)) == WithBehavioral(w, data)
  {
    var evidence := ListOf(Get(Fields(ReportOf(data).behavioral), "evidence"));
    if evidence.Some? { NewIssues(w, data, FromEvidence(w, evidence.value)); }
  }

  lemma StillEmpty(w: World, phase: J, data: Output)
    requires !Uncountable(data) && Issues(w, Augmented(w, phase, data)) == []
    ensures Augmented(w, phase, data) == Filled(w, phase, data)
  {
    ReportKept(w, phase, data);
    RegressionExtends(w, phase, Filled(w, phase, data));
  }

  lemma FilledTwice(w: World, phase: J, data: Output)
    requires !Uncountable(data)
    ensures Filled(w, phase, Filled(w, phase, data)) == Filled(w, phase, data)
  {
    ReportKept(w, phase, data);
    BehavioralTwice(w, data);
  }

  lemma FullStays(w: World, phase: J, data: Output)
    requires !Uncountable(data) && Issues(w, data) != []
    ensures Filled(w, phase, data) == data
  {
    CountedIssues(w, data);
  }

  /** A list that is not empty any more, or one that nothing could fill, is left alone the second time. */
  lemma BehavioralAgain(w: World, phase: J, data: Output)
    requires !Uncountable(data)
    ensures Filled(w, phase, Augmented(w, phase, data)) == Augmented(w, phase, data)
  {
    if Issues(w, Augmented(w, phase, data)) == [] {
      StillEmpty(w, phase, data);
      FilledTwice(w, phase, data);
    } else {
      IssuesOnlyAppended(w, phase, data);
      FullStays(w, phase, Augmented(w, phase, data));
    }
  }

  lemma AugmentedTwice(w: World, phase: J, data: Output)
    requires !Uncountable(data)
    ensures Augmented(w, phase, Augmented(w, phase, data)) == Augmented(w, phase, data)
  {
    var after := Augmented(w, phase, data);
    IssuesOnlyAppended(w, phase, data);
    ReportBlindToIssues(data, after);
    BehavioralAgain(w, phase, data);
    if RegressionRejection(phase, ReportOf(data)) { RegressionPresent(w, phase, data); }
  }

  /** Whatever was rejected is rejected again, and only a lone regression loses its own code. */
  lemma RejectedAgain(w: World, phase: J, data: Output)
    requires !Uncountable(data) && Rejected(w, phase, ReportOf(data), Issues(w, data))
    ensures var after := Augmented(w, phase, data);
            && ReportOf(after) == ReportOf(data) && Rejected(w, phase, ReportOf(after), Issues(w, after))
            && CodeOf(w, phase, ReportOf(after), Issues(w, after)) == ErrValidationFailed
  {
    var after := Augmented(w, phase, data);
    IssuesOnlyAppended(w, phase, data);
    ReportBlindToIssues(data, after);
    if RegressionRejection(phase, ReportOf(data)) { RegressionPresent(w, phase, data); }
  }

  /** The report is fit, its issues can be counted, and a regression is all that it fails on. */
  predicate LoneRegression(w: World, phase: J, data: Output) {
    && Unfit(w, phase, ReportOf(data)).None? && !Uncountable(data)
    && OnlyRegression(w, phase, ReportOf(data), Issues(w, data))
  }

  /**
   * The write-back is a fixpoint: run again on what it wrote, with the same files and phase state,
   * the gate gives the same verdict and writes the same output. The recorded error code changes if
   * and only if a regression was the only failure: the issue added for it turns the code generic.
   */
  lemma WriteBackIsFixpoint(w: World, phase: J, data: Output)
    ensures var first := Evaluate(w, phase, data);
            && first.data.Some?
            && var second := Evaluate(w, phase, first.data.value);
               && second.verdict == first.verdict && second.data == first.data
               && (second.code != first.code <==> LoneRegression(w, phase, data))
               && (LoneRegression(w, phase, data) ==>
                     first.code == Some(ErrRegressionPriorPhase) && second.code == Some(ErrValidationFailed))
  {
    var r := ReportOf(data);
    if Unfit(w, phase, r).None? && !Uncountable(data) && Rejected(w, phase, r, Issues(w, data)) {
      RejectedTwice(w, phase, data);
    }
  }

  /** The gate raises if and only if a fit report has a number or a boolean for its issues. */
  lemma CrashesExactly(w: World, phase: J, data: Output)
    ensures Evaluate(w, phase, data).verdict == Crash <==> Unfit(w, phase, ReportOf(data)).None? && Uncountable(data)
  {
    if !Uncountable(data) {
      CountedIssues(w, data);
      IssuesOnlyAppended(w, phase, data);
      CountedIssues(w, Augmented(w, phase, data));
    }
  }

  /** A phase with a prior phase to check again. */
  const SECOND_PHASE := Obj(map["prior_phase_raw_id" := Str("P1"), "prior_phase_how_to_check" := Str("run it")])

  /** A reviewer who followed the recipe of that phase and saw it fail, and nothing else. */
  const FAILED_PRIOR: Output := map[
    "integration_tests_passing" := Bool(true),
    "regression_verification" := Obj(map[
      "verdict" := Str("fail"), "prior_phase_raw_id" := Str("P1"),
      "prior_phase_how_to_check_followed" := Bool(true)])]

  lemma PriorBlock(w: World)
    ensures var block := ReportOf(FAILED_PRIOR).regression;
            block.Obj? && RegressionShape(w, SECOND_PHASE, block) && RegressionFailed(block.fields)
  {
    var block := FAILED_PRIOR["regression_verification"];
    assert Get(block.fields, "verdict") == Str("fail");
    assert Get(block.fields, "prior_phase_how_to_check_followed") == Bool(true);
  }

  lemma PriorFailed(w: World)
    requires !w.artifactsMissing && !w.visual
    ensures LoneRegression(w, SECOND_PHASE, FAILED_PRIOR)
  {
    PriorBlock(w);
    assert Get(FAILED_PRIOR, ISSUES) == Null && ReportOf(FAILED_PRIOR).tests == Bool(true);
    assert !HasBehavioralBlock(SECOND_PHASE) && NeedsRegression(SECOND_PHASE);
  }

  /** Its code changes between the two runs, whatever the retry count. */
  lemma CodeChanges(w: World)
    requires !w.artifactsMissing && !w.visual
    ensures var first := Evaluate(w, SECOND_PHASE, FAILED_PRIOR);
            && first.code == Some(ErrRegressionPriorPhase) && first.data.Some?
            && Evaluate(w, SECOND_PHASE, first.data.value).code == Some(ErrValidationFailed)
  {
    PriorFailed(w);
    WriteBackIsFixpoint(w, SECOND_PHASE, FAILED_PRIOR);
  }

  /** A count instead of a list, on a phase that calls for no check. */
  lemma CountCrashes(w: World, n: int)
    requires !w.artifactsMissing && !w.visual
    ensures Evaluate(w, Obj(map[]), map[ISSUES := Int(n)]).verdict == Crash
  {
    CrashesExactly(w, Obj(map[]), map[ISSUES := Int(n)]);
  }

  lemma RejectedTwice(w: World, phase: J, data: Output)
    requires Unfit(w, phase, ReportOf(data)).None? && !Uncountable(data)
               && Rejected(w, phase, ReportOf(data), Issues(w, data))
    ensures var after := Augmented(w, phase, data);
            Evaluate(w, phase, after) == Outcome(Route(w, after), Some(ErrValidationFailed), Some(after))
  {
    IssuesOnlyAppended(w, phase, data);
    AugmentedTwice(w, phase, data);
    RejectedAgain(w, phase, data);
  }

  // ---------------------------------------------------------------------------------------
  // Order, and what PASS means
  // ---------------------------------------------------------------------------------------

  lemma SameMembers(a: seq<J>, b: seq<J>, j: J)
    requires multiset(a) == multiset(b) && j in a
    ensures j in b
  {
    assert j in multiset(a);
  }

  lemma SomeAlike(a: seq<J>, b: seq<J>)
    requires multiset(a) == multiset(b) && AnyBlamesPlan(a)
    ensures AnyBlamesPlan(b)
  {
    var i :| 0 <= i < |a| && BlamesPlan(a[i]);
    SameMembers(a, b, a[i]);
    var k :| 0 <= k < |b| && b[k] == a[i];
  }

  /** The order of the reviewer's issues changes neither verdict nor error code. */
  lemma OrderDoesNotMatter(w: World, phase: J, data: Output, a: seq<J>, b: seq<J>)
    requires multiset(a) == multiset(b)
    ensures Evaluate(w, phase, data[ISSUES := Arr(a)]).verdict == Evaluate(w, phase, data[ISSUES := Arr(b)]).verdict
    ensures Evaluate(w, phase, data[ISSUES := Arr(a)]).code == Evaluate(w, phase, data[ISSUES := Arr(b)]).code
  {
    var x, y := data[ISSUES := Arr(a)], data[ISSUES := Arr(b)];
    assert |a| == |multiset(a)| == |multiset(b)| == |b|;
    NewIssues(w, data, a);
    NewIssues(w, data, b);
    if a == [] {
      assert x == y;
    } else {
      if AnyBlamesPlan(a) { SomeAlike(a, b); }
      if AnyBlamesPlan(b) { SomeAlike(b, a); }
      SameAnswer(w, phase, x, y);
    }
  }

  /** With issues at hand the answer depends on what they blame, and nothing else about them. */
  lemma SameAnswer(w: World, phase: J, x: Output, y: Output)
    requires ReportOf(x) == ReportOf(y) && !Uncountable(x) && !Uncountable(y)
    requires Issues(w, x) != [] && Issues(w, y) != [] && (AnyBlamesPlan(Issues(w, x)) <==> AnyBlamesPlan(Issues(w, y)))
    ensures Evaluate(w, phase, x).verdict == Evaluate(w, phase, y).verdict
    ensures Evaluate(w, phase, x).code == Evaluate(w, phase, y).code
  {
    NonEmptyRoute(w, phase, x);
    NonEmptyRoute(w, phase, y);
    CountedIssues(w, x);
    CountedIssues(w, y);
  }

  /** With issues at hand, the route is decided by them alone. */
  lemma NonEmptyRoute(w: World, phase: J, data: Output)
    requires !Uncountable(data)
    ensures Route(w, Augmented(w, phase, data)) == Route(w, data)
  {
    var after := Augmented(w, phase, data);
    IssuesOnlyAppended(w, phase, data);
    ExtensionBlames(w, Issues(w, data), Issues(w, after));
    RouteFromIssues(w, data);
    RouteFromIssues(w, after);
  }

  lemma RouteFromIssues(w: World, data: Output)
    requires !Uncountable(data)
    ensures Route(w, data) == if w.retries == 0 then RouteExecutor
                              else if w.retries != 1 then RouteEscalate
                              else if AnyBlamesPlan(Issues(w, data)) then RoutePlanner
                              else RouteExecutor
  {
    CountedIssues(w, data);
  }

  lemma ExtensionBlames(w: World, had: seq<J>, now: seq<J>)
    requires Extends(w, had, now)
    ensures AnyBlamesPlan(had) <==> AnyBlamesPlan(now)
  {
    if AnyBlamesPlan(had) {
      var i :| 0 <= i < |had| && BlamesPlan(had[i]);
      assert now[i] == had[i];
    }
    if AnyBlamesPlan(now) {
      var i :| 0 <= i < |now| && BlamesPlan(now[i]);
      assert i >= |had| ==> MayAdd(w, had, now, i);
      assert had[i] == now[i];
    }
  }

  // ---------------------------------------------------------------------------------------
  // The reports as a reader sees them: keys, verdicts and numbers spelled out
  // ---------------------------------------------------------------------------------------

  /** The object has the key, and something under it. */
  predicate Has(j: J, key: string) {
    j.Obj? && key in j.fields && Truthy(j.fields[key])
  }

  predicate Says(j: J, key: string, value: J) {
    j.Obj? && key in j.fields && j.fields[key] == value
  }

  predicate Answers(j: J, key: string) {
    Says(j, key, Bool(true)) || Says(j, key, Bool(false))
  }

  /** Under the key stands the path of a file that exists inside the workspace. */
  predicate Points(w: World, j: J, key: string) {
    && Has(j, key) && j.fields[key].Str?
    && !w.escapes(j.fields[key].s) && w.present(j.fields[key].s)
  }

  predicate IsAnchor(w: World, j: J) {
    Has(j, "claim") && Has(j, "method") && Points(w, j, "file_or_screenshot_or_log")
  }

  /** At least three anchors, and nothing else, under "evidence". */
  predicate Backed(w: World, j: J) {
    && Has(j, "evidence") && j.fields["evidence"].Arr? && |j.fields["evidence"].items| >= 3
    && forall i | 0 <= i < |j.fields["evidence"].items| :: IsAnchor(w, j.fields["evidence"].items[i])
  }

  /** The phase state calls for a behavioural check. */
  predicate AsksBehavior(phase: J) {
    && Has(phase, "behavioral_verification")
    && var block := phase.fields["behavioral_verification"];
       Has(block, "user_observable") && Has(block, "how_to_check") && Has(block, "failure_language")
  }

  predicate AsksRegression(phase: J) {
    Has(phase, "prior_phase_raw_id") && Has(phase, "prior_phase_how_to_check")
  }

  /** A check the phase calls for, passed: a "pass" verdict and its evidence on disk inside the workspace. */
  predicate BehaviorShown(w: World, block: J) {
    Says(block, "verdict", Str("pass")) && Answers(block, "how_to_check_followed") && Backed(w, block)
  }

  /** The block speaks of the prior phase that the phase state names. */
  predicate SamePrior(phase: J, block: J) {
    block.Obj? && LooseEq(Get(block.fields, "prior_phase_raw_id"), Get(Fields(phase), "prior_phase_raw_id"))
  }

  predicate NoRegressionShown(w: World, phase: J, block: J) {
    && Says(block, "verdict", Str("pass")) && Says(block, "prior_phase_how_to_check_followed", Bool(true))
    && SamePrior(phase, block) && Backed(w, block)
  }

  predicate VisualShown(w: World, verdict: J, artifacts: J) {
    && verdict == Str("pass") && artifacts.Arr? && artifacts.items != []
    && forall i | 0 <= i < |artifacts.items| :: Points(w, artifacts.items[i], "path")
  }

  /** A report the gate can judge: it admits the failure, or it shows the success. */
  predicate VisualSound(w: World, verdict: J, artifacts: J) {
    verdict == Str("fail") || verdict == Str("cannot_verify") || VisualShown(w, verdict, artifacts)
  }

  predicate AdmitsFailure(block: J) {
    Says(block, "verdict", Str("fail")) || Says(block, "verdict", Str("cannot_verify"))
  }

  predicate BehaviorSound(w: World, block: J) {
    (AdmitsFailure(block) && Answers(block, "how_to_check_followed")) || BehaviorShown(w, block)
  }

  /** A verdict and an answer about the right prior phase; a claimed success is backed. */
  predicate RegressionSound(w: World, phase: J, block: J) {
    && (AdmitsFailure(block) || Says(block, "verdict", Str("pass")))
    && SamePrior(phase, block) && Answers(block, "prior_phase_how_to_check_followed")
    && (Says(block, "verdict", Str("pass")) && Says(block, "prior_phase_how_to_check_followed", Bool(true)) ==>
          Backed(w, block))
  }

  lemma CalledFor(phase: J)
    ensures HasBehavioralBlock(phase) <==> AsksBehavior(phase)
    ensures NeedsRegression(phase) <==> AsksRegression(phase)
  {
  }

  lemma AnchorAt(w: World, j: J)
    ensures Anchored(w, j) <==> IsAnchor(w, j)
  {
  }

  lemma EvidenceBacks(w: World, block: J)
    requires block.Obj?
    ensures EnoughEvidence(w, Get(block.fields, "evidence")) <==> Backed(w, block)
  {
    var evidence := Get(block.fields, "evidence");
    if evidence.Arr? {
      forall i | 0 <= i < |evidence.items| ensures Anchored(w, evidence.items[i]) <==> IsAnchor(w, evidence.items[i]) {
        AnchorAt(w, evidence.items[i]);
      }
    }
  }

  lemma VisualFit(w: World, verdict: J, artifacts: J)
    ensures VisualShape(w, verdict, artifacts) <==> VisualSound(w, verdict, artifacts)
    ensures VisualShape(w, verdict, artifacts) && !Rejects(verdict) <==> VisualShown(w, verdict, artifacts)
  {
  }

  lemma ReadAt(block: J, key: string, value: J)
    requires block.Obj? && value != Null
    ensures Get(block.fields, key) == value <==> Says(block, key, value)
  {
  }

  lemma VerdictRead(block: J)
    requires block.Obj?
    ensures IsVerdict(Get(block.fields, "verdict")) <==> AdmitsFailure(block) || Says(block, "verdict", Str("pass"))
    ensures Rejects(Get(block.fields, "verdict")) <==> AdmitsFailure(block)
    ensures Get(block.fields, "verdict") == Str("pass") <==> Says(block, "verdict", Str("pass"))
  {
    ReadAt(block, "verdict", Str("pass"));
    ReadAt(block, "verdict", Str("fail"));
    ReadAt(block, "verdict", Str("cannot_verify"));
  }

  lemma AnswerRead(block: J, key: string)
    requires block.Obj?
    ensures Get(block.fields, key).Bool? <==> Answers(block, key)
    ensures Get(block.fields, key) == Bool(true) <==> Says(block, key, Bool(true))
    ensures Get(block.fields, key) == Bool(false) <==> Says(block, key, Bool(false))
  {
    ReadAt(block, key, Bool(true));
    ReadAt(block, key, Bool(false));
    var answer := Get(block.fields, key);
    assert answer.Bool? ==> answer == Bool(answer.b);
  }

  lemma BehaviorFit(w: World, block: J)
    ensures BehavioralShape(w, block) <==> BehaviorSound(w, block)
  {
    if block.Obj? {
      EvidenceBacks(w, block);
      VerdictRead(block);
      AnswerRead(block, "how_to_check_followed");
    }
  }

  lemma RegressionFit(w: World, phase: J, block: J)
    ensures RegressionShape(w, phase, block) <==> RegressionSound(w, phase, block)
  {
    if block.Obj? {
      EvidenceBacks(w, block);
      VerdictRead(block);
      AnswerRead(block, "prior_phase_how_to_check_followed");
    }
  }

  lemma BehaviorPassed(w: World, block: J)
    ensures BehavioralShape(w, block) && !Rejects(Get(Fields(block), "verdict")) <==> BehaviorShown(w, block)
  {
    BehaviorFit(w, block);
    if block.Obj? { VerdictRead(block); }
  }

  lemma RegressionPassed(w: World, phase: J, block: J)
    ensures RegressionShape(w, phase, block) && !RegressionFailed(Fields(block)) <==> NoRegressionShown(w, phase, block)
  {
    RegressionFit(w, phase, block);
    if block.Obj? {
      VerdictRead(block);
      AnswerRead(block, "prior_phase_how_to_check_followed");
    }
  }

  /** Neither an unfit report nor the routing of a rejection ever passes. */
  lemma PassMeans(w: World, phase: J, data: Output)
    ensures Evaluate(w, phase, data).verdict == Pass <==>
              && Unfit(w, phase, ReportOf(data)).None? && !Uncountable(data)
              && !Rejected(w, phase, ReportOf(data), Issues(w, data))
    ensures Evaluate(w, phase, data).verdict == Pass ==> Evaluate(w, phase, data).data == Some(data)
  {
  }

  /** Nothing speaks against the phase but, perhaps, a regression of the prior one. */
  predicate PassesAlone(w: World, phase: J, data: Output) {
    && Has(Obj(data), "integration_tests_passing")
    && Get(data, "blocking_issues") in {Null, Arr([]), Str(""), Obj(map[])}
    && (w.visual ==> VisualShown(w, Get(data, "visual_verification"), Get(data, "visual_smoke_artifacts")))
    && (AsksBehavior(phase) ==> BehaviorShown(w, Get(data, "behavioral_verification")))
  }

  predicate PriorStillPasses(w: World, phase: J, data: Output) {
    AsksRegression(phase) ==> NoRegressionShown(w, phase, Get(data, "regression_verification"))
  }

  /**
   * PASS exactly when it is backed: the completion artifacts are there, the issues are absent or an
   * empty container, the integration tests pass, and every check that the phase calls for was passed
   * with evidence.
   */
  lemma PassIsBacked(w: World, phase: J, data: Output)
    ensures Evaluate(w, phase, data).verdict == Pass <==>
              !w.artifactsMissing && PassesAlone(w, phase, data) && PriorStillPasses(w, phase, data)
    ensures Evaluate(w, phase, data).verdict == Pass ==> Evaluate(w, phase, data).data == Some(data)
  {
    var r := ReportOf(data);
    CalledFor(phase);
    PassMeans(w, phase, data);
    VisualFit(w, r.visual, r.artifacts);
    BehaviorPassed(w, r.behavioral);
    RegressionPassed(w, phase, r.regression);
    NoIssuesAt(w, data);
  }

  lemma NoIssuesAt(w: World, data: Output)
    ensures !Uncountable(data) && Issues(w, data) == [] <==> Get(data, ISSUES) in {Null, Arr([]), Str(""), Obj(map[])}
  {
    if !Uncountable(data) { CountedIssues(w, data); }
  }

  // ---------------------------------------------------------------------------------------
  // What a phase sent back gets written into its issues
  // ---------------------------------------------------------------------------------------

  /** The entries of the evidence, if it is a list. */
  function Entries(block: J): seq<J> {
    if Has(block, "evidence") && block.fields["evidence"].Arr? then block.fields["evidence"].items else []
  }

  predicate RegressionSeen(block: J) {
    AdmitsFailure(block) || Says(block, "prior_phase_how_to_check_followed", Bool(false))
  }

  lemma FailureRead(block: J)
    ensures Rejects(Get(Fields(block), "verdict")) <==> AdmitsFailure(block)
    ensures RegressionFailed(Fields(block)) <==> RegressionSeen(block)
  {
    if block.Obj? {
      VerdictRead(block);
      AnswerRead(block, "prior_phase_how_to_check_followed");
    }
  }

  lemma FilledIssues(w: World, phase: J, data: Output)
    requires !Uncountable(data)
    ensures var had, block := Issues(w, data), Get(data, "behavioral_verification");
            Issues(w, Filled(w, phase, data)) ==
              if AsksBehavior(phase) && AdmitsFailure(block) && had == [] then FromEvidence(w, Entries(block)) else had
  {
    var block := ReportOf(data).behavioral;
    var evidence := ListOf(Get(Fields(block), "evidence"));
    CalledFor(phase);
    FailureRead(block);
    CountedIssues(w, data);
    if evidence.Some? { NewIssues(w, data, FromEvidence(w, evidence.value)); }
  }

  /**
   * The issues afterwards: those of the behavioural evidence where there were none and that check
   * failed, and behind them one for a failed regression, unless there is one already.
   */
  lemma IssuesWritten(w: World, phase: J, data: Output)
    requires !Uncountable(data)
    ensures var had, behavior, prior :=
              Issues(w, data), Get(data, "behavioral_verification"), Get(data, "regression_verification");
            var listed :=
              if AsksBehavior(phase) && AdmitsFailure(behavior) && had == [] then FromEvidence(w, Entries(behavior))
              else had;
            var known := exists i | 0 <= i < |listed| ::
                           Says(listed[i], "criterion_source", Str("regression_prior_phase"));
            Issues(w, Augmented(w, phase, data)) ==
              if AsksRegression(phase) && RegressionSeen(prior) && !known
              then listed + [RegressionIssue(w, phase, Fields(prior))] else listed
  {
    var filled := Filled(w, phase, data);
    var listed, prior := Issues(w, filled), ReportOf(data).regression;
    CalledFor(phase);
    FilledIssues(w, phase, data);
    FailureRead(prior);
    ReportKept(w, phase, data);
    KnownRead(listed);
    NewIssues(w, filled, listed + [RegressionIssue(w, phase, Fields(prior))]);
  }

  lemma KnownRead(listed: seq<J>)
    ensures HasRegressionIssue(listed) <==>
              exists i | 0 <= i < |listed| :: Says(listed[i], "criterion_source", Str("regression_prior_phase"))
  {
    forall i | 0 <= i < |listed|
      ensures IsRegressionIssue(listed[i]) <==> Says(listed[i], "criterion_source", Str("regression_prior_phase"))
    {
      if listed[i].Obj? { ReadAt(listed[i], "criterion_source", Str("regression_prior_phase")); }
    }
  }

  /** What went wrong: in the reviewer's words if there are any, or a recipe not run, not decided or failed. */
  lemma RegressionWorded(w: World, prior: J, block: J)
    requires block.Obj?
    ensures var text := RegressionText(w, prior, block.fields);
            var skipped := Says(block, "prior_phase_how_to_check_followed", Bool(false));
            if Has(block, "failure_summary") then text == w.show(block.fields["failure_summary"])
            else if skipped then text == "Prior phase " + w.show(prior) + " how_to_check recipe was not executed"
            else if Says(block, "verdict", Str("cannot_verify"))
              then text == "Prior phase regression check could not verify"
            else text == "Prior phase " + w.show(prior) + " how_to_check regressed"
  {
    AnswerRead(block, "prior_phase_how_to_check_followed");
    ReadAt(block, "verdict", Str("cannot_verify"));
  }

  /** The regression issue names the prior phase, its text, and the file of the first evidence entry. */
  lemma RegressionDescribed(w: World, phase: J, block: J)
    requires AsksRegression(phase) && block.Obj?
    ensures var issue, prior := RegressionIssue(w, phase, block.fields), phase.fields["prior_phase_raw_id"];
            && Says(issue, "attribution", Str("impl")) && Says(issue, "criterion_id", prior)
            && Says(issue, "criterion_source", Str("regression_prior_phase"))
            && Says(issue, "description", Str(RegressionText(w, prior, block.fields)))
    ensures var evidence := Entries(block);
            Says(RegressionIssue(w, phase, block.fields), "affected_file",
                 if evidence != [] && Has(evidence[0], "file_or_screenshot_or_log") then SafePath(w, evidence[0])
                 else Str(""))
  {
    assert Truthy(phase.fields["prior_phase_raw_id"]);
  }

  // ---------------------------------------------------------------------------------------
  // Which answer, and with which code
  // ---------------------------------------------------------------------------------------

  predicate VisualAccepted(w: World, data: Output) {
    w.visual ==> VisualSound(w, Get(data, "visual_verification"), Get(data, "visual_smoke_artifacts"))
  }

  predicate BehaviorAccepted(w: World, phase: J, data: Output) {
    AsksBehavior(phase) ==> BehaviorSound(w, Get(data, "behavioral_verification"))
  }

  predicate RegressionAccepted(w: World, phase: J, data: Output) {
    AsksRegression(phase) ==> RegressionSound(w, phase, Get(data, "regression_verification"))
  }

  /** All three checks let the report through. */
  predicate Accepted(w: World, phase: J, data: Output) {
    VisualAccepted(w, data) && BehaviorAccepted(w, phase, data) && RegressionAccepted(w, phase, data)
  }

  /** A number or a boolean for the issues, which cannot be counted. */
  predicate CountFails(data: Output) {
    var issues := Get(data, "blocking_issues");
    issues.Bool? || issues.Int? || issues.Float?
  }

  /** One of the listed issues has the attribution "plan". */
  predicate PlanBlamed(data: Output) {
    && Get(data, "blocking_issues").Arr?
    && exists i | 0 <= i < |data["blocking_issues"].items| ::
         Says(data["blocking_issues"].items[i], "attribution", Str("plan"))
  }

  /** The report is judged, and the phase is sent back. */
  predicate SentBack(w: World, phase: J, data: Output) {
    && Accepted(w, phase, data) && !CountFails(data)
    && !(PassesAlone(w, phase, data) && PriorStillPasses(w, phase, data))
  }

  predicate OnlyRegressed(w: World, phase: J, data: Output) {
    Accepted(w, phase, data) && PassesAlone(w, phase, data) && !PriorStillPasses(w, phase, data)
  }

  lemma Refusal(w: World, phase: J, data: Output)
    ensures Unfit(w, phase, ReportOf(data)) ==
              if w.artifactsMissing then Some((MissingArtifacts, ErrMissingArtifacts))
              else if !VisualAccepted(w, data) then Some((VisualUnverified, ErrVisual))
              else if !BehaviorAccepted(w, phase, data) then Some((BehavioralUnverified, ErrBehavioral))
              else if !RegressionAccepted(w, phase, data) then Some((RegressionUnverified, ErrRegressionUnverified))
              else None
  {
    var r := ReportOf(data);
    CalledFor(phase);
    VisualFit(w, r.visual, r.artifacts);
    BehaviorFit(w, r.behavioral);
    RegressionFit(w, phase, r.regression);
  }

  lemma PlanAmongIssues(w: World, data: Output)
    requires !Uncountable(data)
    ensures AnyBlamesPlan(Issues(w, data)) <==> PlanBlamed(data)
  {
    var listed, issues := Get(data, "blocking_issues"), Issues(w, data);
    if listed.Arr? {
      assert issues == listed.items;
      forall i | 0 <= i < |issues| ensures BlamesPlan(issues[i]) <==> Says(issues[i], "attribution", Str("plan")) {
        if issues[i].Obj? { ReadAt(issues[i], "attribution", Str("plan")); }
      }
    } else {
      assert forall i | 0 <= i < |issues| :: issues[i].Str?;
    }
  }

  /** The route of a phase that is sent back, and the code of a regression that came alone. */
  lemma SentBackAnswer(w: World, phase: J, data: Output)
    requires !w.artifactsMissing && SentBack(w, phase, data)
    ensures var o := Evaluate(w, phase, data);
            && o.verdict == (if w.retries == 0 then RouteExecutor
                             else if w.retries != 1 then RouteEscalate
                             else if PlanBlamed(data) then RoutePlanner
                             else RouteExecutor)
            && o.code == Some(if OnlyRegressed(w, phase, data) then ErrRegressionPriorPhase else ErrValidationFailed)
            && o.data == Some(Augmented(w, phase, data))
  {
    Refusal(w, phase, data);
    PassIsBacked(w, phase, data);
    NonEmptyRoute(w, phase, data);
    RouteFromIssues(w, data);
    PlanAmongIssues(w, data);
    LoneCode(w, phase, data);
  }

  lemma LoneCode(w: World, phase: J, data: Output)
    requires SentBack(w, phase, data)
    ensures OnlyRegression(w, phase, ReportOf(data), Issues(w, data)) <==> OnlyRegressed(w, phase, data)
  {
    var r := ReportOf(data);
    CalledFor(phase);
    NoIssuesAt(w, data);
    VisualFit(w, r.visual, r.artifacts);
    BehaviorPassed(w, r.behavioral);
    BehaviorFit(w, r.behavioral);
    RegressionPassed(w, phase, r.regression);
    RegressionFit(w, phase, r.regression);
  }

  /**
   * The verdict, told from the reviewer's output: missing artifacts before a missing file, then the
   * visual, the behavioural and the regression report, each refused under its own verdict and code;
   * an accepted report passes, raises, or is routed by the retries spent and the issues' attribution.
   */
  lemma VerdictsExactly(w: World, phase: J, file: Option<Output>)
    ensures var o, there := EvaluateFile(w, phase, file), !w.artifactsMissing && file.Some?;
            && (o.verdict == MissingArtifacts <==> w.artifactsMissing)
            && (o.verdict == ContractFailure <==> !w.artifactsMissing && file.None?)
            && (o.verdict == VisualUnverified <==> there && !VisualAccepted(w, file.value))
            && (o.verdict == BehavioralUnverified <==>
                  there && VisualAccepted(w, file.value) && !BehaviorAccepted(w, phase, file.value))
            && (o.verdict == RegressionUnverified <==>
                  && there && VisualAccepted(w, file.value) && BehaviorAccepted(w, phase, file.value)
                  && !RegressionAccepted(w, phase, file.value))
            && (o.verdict == Crash <==> there && Accepted(w, phase, file.value) && CountFails(file.value))
            && (o.verdict == Pass <==>
                  there && PassesAlone(w, phase, file.value) && PriorStillPasses(w, phase, file.value))
            && (o.verdict == RouteExecutor <==>
                  && there && SentBack(w, phase, file.value)
                  && (w.retries == 0 || (w.retries == 1 && !PlanBlamed(file.value))))
            && (o.verdict == RoutePlanner <==>
                  there && SentBack(w, phase, file.value) && w.retries == 1 && PlanBlamed(file.value))
            && (o.verdict == RouteEscalate <==>
                  there && SentBack(w, phase, file.value) && w.retries != 0 && w.retries != 1)
  {
    if !w.artifactsMissing && file.Some? {
      Refusal(w, phase, file.value);
      PassIsBacked(w, phase, file.value);
      if SentBack(w, phase, file.value) { SentBackAnswer(w, phase, file.value); }
    }
  }

  predicate Judged(verdict: Verdict) {
    verdict in {RouteExecutor, RoutePlanner, RouteEscalate}
  }

  /** The codes that go with the verdicts; `alone` says that a regression is all there is. */
  predicate CodeFits(o: Outcome, alone: bool) {
    && (o.code == Some(ErrMissingArtifacts) <==> o.verdict == MissingArtifacts)
    && (o.code == Some(ErrContract) <==> o.verdict == ContractFailure)
    && (o.code == Some(ErrVisual) <==> o.verdict == VisualUnverified)
    && (o.code == Some(ErrBehavioral) <==> o.verdict == BehavioralUnverified)
    && (o.code == Some(ErrRegressionUnverified) <==> o.verdict == RegressionUnverified)
    && (o.code == None <==> o.verdict == Pass || o.verdict == Crash)
    && (o.code == Some(ErrRegressionPriorPhase) <==> alone)
    && (o.code == Some(ErrValidationFailed) <==> Judged(o.verdict) && !alone)
  }

  lemma RefusedCodes(w: World, phase: J, data: Output)
    requires !w.artifactsMissing && !Accepted(w, phase, data)
    ensures CodeFits(Evaluate(w, phase, data), false) && Evaluate(w, phase, data).data == Some(data)
  {
    Refusal(w, phase, data);
  }

  lemma ClearedCodes(w: World, phase: J, data: Output)
    requires !w.artifactsMissing && Accepted(w, phase, data) && !SentBack(w, phase, data)
    ensures CodeFits(Evaluate(w, phase, data), false) && Evaluate(w, phase, data).data == Some(data)
  {
    Refusal(w, phase, data);
    if !CountFails(data) { PassIsBacked(w, phase, data); }
  }

  lemma SentBackCodes(w: World, phase: J, data: Output)
    requires !w.artifactsMissing && SentBack(w, phase, data)
    ensures var o := Evaluate(w, phase, data); CodeFits(o, OnlyRegressed(w, phase, data)) && Judged(o.verdict)
  {
    SentBackAnswer(w, phase, data);
  }

  lemma DataCodes(w: World, phase: J, data: Output)
    requires !w.artifactsMissing
    ensures var o := Evaluate(w, phase, data);
            CodeFits(o, OnlyRegressed(w, phase, data)) && (o.data != Some(data) ==> Judged(o.verdict))
  {
    if SentBack(w, phase, data) {
      SentBackCodes(w, phase, data);
    } else if Accepted(w, phase, data) {
      ClearedCodes(w, phase, data);
    } else {
      RefusedCodes(w, phase, data);
    }
  }

  /** The recorded code of every verdict, and the file it leaves: only a phase sent back changes it. */
  lemma CodesExactly(w: World, phase: J, file: Option<Output>)
    ensures var o := EvaluateFile(w, phase, file);
            && CodeFits(o, !w.artifactsMissing && file.Some? && OnlyRegressed(w, phase, file.value))
            && (o.data != file ==> Judged(o.verdict))
  {
    if !w.artifactsMissing && file.Some? { DataCodes(w, phase, file.value); }
  }
}

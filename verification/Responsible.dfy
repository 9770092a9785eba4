/** The reference publication profile (hap/responsible.py): whether a published record is listed. */
module Responsible {
  import opened Bytes
  import opened Batches
  import opened Sums
  import opened Tables

  // ---- the declared impact --------------------------------------------------------

  function ImpactTag(value: string): string {
    "hap:person-impact:" + value
  }

  predicate IsImpact(value: string) {
    value == "none" || value == "direct" || value == "indirect-or-mosaic" || value == "uncertain"
  }

  predicate StartsWith(text: string, prefix: string) {
    prefix <= text
  }

  /** The values that the tags declare; others are ignored. */
  function DeclaredValues(tags: seq<string>): set<string> {
    set tag | tag in tags && StartsWith(tag, ImpactTag("")) && IsImpact(tag[|ImpactTag("")|..])
      :: tag[|ImpactTag("")|..]
  }

  /** `declared_person_impact`: several different values count as "uncertain". */
  function DeclaredImpact(tags: seq<string>): Option<string> {
    var values := DeclaredValues(tags);
    if |values| > 1 then Some("uncertain")
    else if values == {} then None
    else
      OnlyOne(values);
      var value :| value in values;
      Some(value)
  }

  lemma OnlyOne(values: set<string>)
    requires |values| <= 1 && values != {}
    ensures forall x, y :: x in values && y in values ==> x == y
  {
    forall x, y | x in values && y in values
      ensures x == y
    {
      SubsetSize({x, y}, values);
    }
  }

  lemma Declared(tags: seq<string>, value: string)
    ensures value in DeclaredValues(tags) <==> IsImpact(value) && ImpactTag(value) in tags
  {
    var prefix := ImpactTag("");
    assert ImpactTag(value) == prefix + value;
    if IsImpact(value) && ImpactTag(value) in tags {
      assert StartsWith(prefix + value, prefix) && (prefix + value)[|prefix|..] == value;
    }
    if value in DeclaredValues(tags) {
      var tag :| tag in tags && StartsWith(tag, prefix) && IsImpact(tag[|prefix|..]) && tag[|prefix|..] == value;
      assert tag == prefix + value;
    }
  }

  /** A record is taken to concern nobody exactly when it says so and says nothing else. */
  lemma DeclaredNone(tags: seq<string>)
    ensures DeclaredImpact(tags) == Some("none") <==>
              ImpactTag("none") in tags && forall v :: IsImpact(v) && v != "none" ==> ImpactTag(v) !in tags
  {
    var values := DeclaredValues(tags);
    forall v
      ensures v in values <==> IsImpact(v) && ImpactTag(v) in tags
    {
      Declared(tags, v);
    }
    if values <= {"none"} {
      SubsetSize(values, {"none"});
    }
    if |values| <= 1 && values != {} {
      OnlyOne(values);
    }
  }

  // ---- the decision, declaratively ------------------------------------------------

  /** What one assessment looks at. */
  datatype Inputs = Inputs(
    record: Record, linked: seq<Record>, anchored: set<string>, heights: map<string, int>, chainHeight: Option<int>,
    recognised: set<string>, coolingBlocks: int, protectionBlocks: int)

  datatype DiscoveryState = Unpublished | Discoverable | DiscoverableByDecision | Protected

  datatype Reason = NotPublished | ImpactMissing | ImpactDeclared(impact: string) | WindowActive
    | RecognisedRestriction | DecisionRestricts | DecisionEnabled

  datatype Flag = NoticesExist | ResponsesExist | RestrictionsExist | DisputesExist

  /** `_record_summary`: fields of the record as they are, and whether it is anchored. */
  datatype Summary = Summary(record: Record, anchored: bool)

  /** How one view decision was looked at. */
  datatype Evaluation = Evaluation(summary: Summary, action: Action, recognised: bool, eligible: bool)

  datatype Assessment = Assessment(
    state: DiscoveryState, reasons: seq<Reason>, flags: seq<Flag>, firstNotice: Option<int>, windowEnd: Option<int>,
    windowActive: bool, blocksElapsed: Option<nat>, coolingComplete: bool, context: map<Topic, seq<Summary>>,
    decisions: seq<Evaluation>)

  function NonNegative(n: int): nat {
    if n < 0 then 0 else n
  }

  /** What a linked record can be about, view decisions apart. */
  datatype Topic = SubjectResponse | ImpactNotice | RestrictionNotice | WithdrawalNotice | LegalAdjudication
    | PublicInterest | Dispute | Correction

  function KindOf(topic: Topic): string {
    match topic
    case SubjectResponse => "subject_response"
    case ImpactNotice => "person_impact_notice"
    case RestrictionNotice => "restriction_notice"
    case WithdrawalNotice => "withdrawal_notice"
    case LegalAdjudication => "legal_adjudication"
    case PublicInterest => "public_interest_justification"
    case Dispute => "dispute"
    case Correction => "correction"
  }

  predicate IsNotice(r: Record) {
    r.kind == KindOf(ImpactNotice) || r.kind == KindOf(RestrictionNotice)
  }

  predicate IsRestriction(r: Record) {
    r.kind == KindOf(RestrictionNotice)
  }

  predicate IsDecision(r: Record) {
    r.kind == "view_decision"
  }

  datatype Action = Enable | Restrict | Neither

  function ActionOf(tags: seq<string>): Action {
    if "hap:view:enable-discovery" in tags then Enable
    else if "hap:view:restrict-discovery" in tags then Restrict
    else Neither
  }

  /** A linked record that counts: anchored, and by an author this node recognises. */
  predicate Eligible(x: Inputs, r: Record) {
    r.id in x.anchored && r.author in x.recognised
  }

  predicate AnchoredNotice(x: Inputs, r: Record) {
    IsNotice(r) && r.id in x.anchored && r.id in x.heights
  }

  /** The lowest height at which a notice is anchored. */
  ghost predicate IsFirstNotice(x: Inputs, linked: seq<Record>, first: Option<int>) {
    match first
    case None => forall r :: r in linked ==> !AnchoredNotice(x, r)
    case Some(h) =>
      && (exists r :: r in linked && AnchoredNotice(x, r) && x.heights[r.id] == h)
      && forall r :: r in linked && AnchoredNotice(x, r) ==> h <= x.heights[r.id]
  }

  predicate Published(x: Inputs) {
    x.record.id in x.anchored
  }

  /** The one challenge window: it opens with the first anchored notice. */
  predicate InWindow(x: Inputs) {
    && x.chainHeight.Some?
    && (exists r :: r in x.linked && AnchoredNotice(x, r))
    && forall r :: r in x.linked && AnchoredNotice(x, r) ==>
                   x.chainHeight.value < x.heights[r.id] + NonNegative(x.protectionBlocks)
  }

  /** The first height at which the window is closed again. */
  function WindowEnd(x: Inputs, first: Option<int>): Option<int> {
    if first.Some? && x.chainHeight.Some? then Some(first.value + NonNegative(x.protectionBlocks)) else None
  }

  /** The blocks since the record was anchored. */
  function Elapsed(x: Inputs): Option<nat> {
    if x.chainHeight.Some? && x.record.id in x.heights
    then Some(NonNegative(x.chainHeight.value - x.heights[x.record.id])) else None
  }

  predicate Restricted(x: Inputs) {
    exists r :: r in x.linked && IsRestriction(r) && Eligible(x, r)
  }

  predicate Cooled(x: Inputs) {
    Elapsed(x).Some? && Elapsed(x).value >= NonNegative(x.coolingBlocks)
  }

  predicate Decided(x: Inputs, action: Action) {
    exists r :: r in x.linked && IsDecision(r) && Eligible(x, r) && ActionOf(r.tags) == action
  }

  predicate ConcernsNobody(x: Inputs) {
    DeclaredImpact(x.record.tags) == Some("none")
  }

  /** Exactly when the reference feed lists a record. */
  predicate Lists(x: Inputs) {
    && Published(x) && !InWindow(x) && !Restricted(x) && !Decided(x, Restrict)
    && (ConcernsNobody(x) || (Decided(x, Enable) && Cooled(x)))
  }

  function StateOf(x: Inputs): DiscoveryState {
    if !Published(x) then Unpublished
    else if !Lists(x) then Protected
    else if ConcernsNobody(x) then Discoverable
    else DiscoverableByDecision
  }

  /** A recognised decision has overridden every other reason. */
  predicate Overridden(x: Inputs) {
    && !(Published(x) && ConcernsNobody(x))
    && Decided(x, Enable) && Cooled(x) && !InWindow(x) && !Restricted(x) && !Decided(x, Restrict)
  }

  /** The reasons that are there before any decision is looked at. */
  predicate Concern(x: Inputs, reason: Reason) {
    match reason
    case NotPublished => !Published(x)
    case ImpactMissing => DeclaredImpact(x.record.tags).None?
    case ImpactDeclared(impact) => DeclaredImpact(x.record.tags) == Some(impact) && impact != "none"
    case WindowActive => InWindow(x)
    case RecognisedRestriction => Restricted(x)
    case _ => false
  }

  predicate Gives(x: Inputs, reason: Reason) {
    if Overridden(x) then reason == DecisionEnabled
    else Concern(x, reason) || (reason == DecisionRestricts && Decided(x, Restrict))
  }

  function GivenIn(x: Inputs): Reason -> bool {
    (reason: Reason) => Gives(x, reason)
  }

  /** Every reason there can be for this record, in the order in which they are reported. */
  function AllReasons(x: Inputs): (r: seq<Reason>)
    ensures |r| == 7
  {
    [ NotPublished, ImpactMissing, ImpactDeclared(DeclaredImpact(x.record.tags).GetOr("")), WindowActive,
      RecognisedRestriction, DecisionRestricts, DecisionEnabled]
  }

  function FlagKind(flag: Flag): string {
    match flag
    case NoticesExist => KindOf(ImpactNotice)
    case ResponsesExist => KindOf(SubjectResponse)
    case RestrictionsExist => KindOf(RestrictionNotice)
    case DisputesExist => KindOf(Dispute)
  }

  predicate HasKind(x: Inputs, kind: string) {
    exists r :: r in x.linked && r.kind == kind
  }

  /** The order in which flags are reported. */
  function Place(flag: Flag): nat {
    match flag
    case NoticesExist => 0
    case ResponsesExist => 1
    case RestrictionsExist => 2
    case DisputesExist => 3
  }

  /** Exactly the flags there is a linked record for, in their order. */
  ghost predicate AreFlags(x: Inputs, flags: seq<Flag>, below: nat) {
    && (forall flag :: flag in flags <==> Place(flag) < below && HasKind(x, FlagKind(flag)))
    && (forall i, j :: 0 <= i < j < |flags| ==> Place(flags[i]) < Place(flags[j]))
  }

  // ---- the context that is reported -----------------------------------------------

  function IsKind(kind: string): Record -> bool {
    (r: Record) => r.kind == kind
  }

  function Summarise(x: Inputs, r: Record): Summary {
    Summary(r, r.id in x.anchored)
  }

  function Evaluate(x: Inputs, r: Record): Evaluation {
    Evaluation(Summarise(x, r), ActionOf(r.tags), r.author in x.recognised, Eligible(x, r))
  }

  /** One summary for every linked record of this kind, in the order in which they are linked. */
  ghost predicate AreSummaries(x: Inputs, kind: string, summaries: seq<Summary>) {
    var rows := Where(IsKind(kind), x.linked);
    |summaries| == |rows| && forall i :: 0 <= i < |rows| ==> summaries[i] == Summarise(x, rows[i])
  }

  /** One evaluation for every view decision among these, in their order. */
  ghost predicate AreEvaluations(x: Inputs, linked: seq<Record>, decisions: seq<Evaluation>) {
    var rows := Where(IsDecision, linked);
    |decisions| == |rows| && forall i :: 0 <= i < |rows| ==> decisions[i] == Evaluate(x, rows[i])
  }

  ghost predicate IsContext(x: Inputs, context: map<Topic, seq<Summary>>) {
    forall topic :: topic in context && AreSummaries(x, KindOf(topic), context[topic])
  }

  function Summaries(x: Inputs, kind: string): (r: seq<Summary>)
    ensures AreSummaries(x, kind, r)
  {
    var rows := Where(IsKind(kind), x.linked);
    seq(|rows|, i requires 0 <= i < |rows| => Summarise(x, rows[i]))
  }

  lemma EvaluationNext(x: Inputs, linked: seq<Record>, i: nat, before: seq<Evaluation>, after: seq<Evaluation>)
    requires i < |linked| && AreEvaluations(x, linked[..i], before)
    requires after == if IsDecision(linked[i]) then before + [Evaluate(x, linked[i])] else before
    ensures AreEvaluations(x, linked[..i + 1], after)
  {
    WhereNext(IsDecision, linked, i);
  }

  lemma SummariesTell(x: Inputs, kind: string, summaries: seq<Summary>)
    requires AreSummaries(x, kind, summaries)
    ensures forall r :: r in x.linked && r.kind == kind ==> Summarise(x, r) in summaries
    ensures forall s :: s in summaries ==>
              s.record in x.linked && s.record.kind == kind && s == Summarise(x, s.record)
  {
    var rows := Where(IsKind(kind), x.linked);
    forall r | r in x.linked && r.kind == kind
      ensures Summarise(x, r) in summaries
    {
      assert r in rows;
      var i :| 0 <= i < |rows| && rows[i] == r;
      assert summaries[i] == Summarise(x, r);
    }
    forall s | s in summaries
      ensures s.record in x.linked && s.record.kind == kind && s == Summarise(x, s.record)
    {
      var i :| 0 <= i < |summaries| && summaries[i] == s;
      assert rows[i] in rows;
    }
  }

  lemma EvaluationsTell(x: Inputs, decisions: seq<Evaluation>)
    requires AreEvaluations(x, x.linked, decisions)
    ensures forall r :: r in x.linked && IsDecision(r) ==> Evaluate(x, r) in decisions
    ensures forall e :: e in decisions ==>
              e.summary.record in x.linked && IsDecision(e.summary.record) && e == Evaluate(x, e.summary.record)
  {
    var rows := Where(IsDecision, x.linked);
    forall r | r in x.linked && IsDecision(r)
      ensures Evaluate(x, r) in decisions
    {
      assert r in rows;
      var i :| 0 <= i < |rows| && rows[i] == r;
      assert decisions[i] == Evaluate(x, r);
    }
    forall e | e in decisions
      ensures e.summary.record in x.linked && IsDecision(e.summary.record) && e == Evaluate(x, e.summary.record)
    {
      var i :| 0 <= i < |decisions| && decisions[i] == e;
      assert rows[i] in rows;
    }
  }

  /** The report explains the outcome: its summaries show whether a restriction counts. */
  lemma RestrictionsExplain(x: Inputs, summaries: seq<Summary>)
    requires AreSummaries(x, KindOf(RestrictionNotice), summaries)
    ensures Restricted(x) <==> exists s :: s in summaries && s.anchored && s.record.author in x.recognised
  {
    SummariesTell(x, KindOf(RestrictionNotice), summaries);
    if Restricted(x) {
      var r :| r in x.linked && IsRestriction(r) && Eligible(x, r);
      assert Summarise(x, r) in summaries;
    }
  }

  /** And its evaluations show which decisions do. */
  lemma DecisionsExplain(x: Inputs, decisions: seq<Evaluation>, action: Action)
    requires AreEvaluations(x, x.linked, decisions)
    ensures Decided(x, action) <==> exists e :: e in decisions && e.eligible && e.action == action
  {
    EvaluationsTell(x, decisions);
    if Decided(x, action) {
      var r :| r in x.linked && IsDecision(r) && Eligible(x, r) && ActionOf(r.tags) == action;
      assert Evaluate(x, r) in decisions;
    }
  }

  // ---- the decision, step by step -------------------------------------------------

  lemma WindowOf(x: Inputs, first: Option<int>)
    requires IsFirstNotice(x, x.linked, first)
    ensures InWindow(x) <==>
              first.Some? && x.chainHeight.Some? && x.chainHeight.value < first.value + NonNegative(x.protectionBlocks)
  {
  }

  /** The lowest anchored notice height. */
  method FirstNotice(x: Inputs) returns (first: Option<int>)
    ensures IsFirstNotice(x, x.linked, first)
  {
    first := None;
    for i := 0 to |x.linked|
      invariant IsFirstNotice(x, x.linked[..i], first)
    {
      var r := x.linked[i];
      assert x.linked[..i + 1] == x.linked[..i] + [r];
      if AnchoredNotice(x, r) {
        if first.None? || x.heights[r.id] < first.value {
          first := Some(x.heights[r.id]);
        }
      }
    }
    assert x.linked[..|x.linked|] == x.linked;
  }

  ghost predicate DecidedAmong(x: Inputs, linked: seq<Record>, action: Action) {
    exists r :: r in linked && IsDecision(r) && Eligible(x, r) && ActionOf(r.tags) == action
  }

  lemma DecidedNext(x: Inputs, linked: seq<Record>, r: Record, action: Action)
    ensures DecidedAmong(x, linked + [r], action) <==>
              DecidedAmong(x, linked, action) || (IsDecision(r) && Eligible(x, r) && ActionOf(r.tags) == action)
  {
    if IsDecision(r) && Eligible(x, r) && ActionOf(r.tags) == action {
      assert r in linked + [r];
    }
    if DecidedAmong(x, linked, action) {
      var d :| d in linked && IsDecision(d) && Eligible(x, d) && ActionOf(d.tags) == action;
      assert d in linked + [r];
    }
  }

  /** The loop over the view decisions. */
  method Decisions(x: Inputs, coolingComplete: bool)
    returns (restrict: bool, enable: bool, evaluations: seq<Evaluation>)
    ensures restrict <==> Decided(x, Restrict)
    ensures enable <==> coolingComplete && Decided(x, Enable)
    ensures AreEvaluations(x, x.linked, evaluations)
  {
    restrict, enable, evaluations := false, false, [];
    for i := 0 to |x.linked|
      invariant restrict <==> DecidedAmong(x, x.linked[..i], Restrict)
      invariant enable <==> coolingComplete && DecidedAmong(x, x.linked[..i], Enable)
      invariant AreEvaluations(x, x.linked[..i], evaluations)
    {
      var r := x.linked[i];
      assert x.linked[..i + 1] == x.linked[..i] + [r];
      DecidedNext(x, x.linked[..i], r, Restrict);
      DecidedNext(x, x.linked[..i], r, Enable);
      EvaluationNext(x, x.linked, i, evaluations,
                     if IsDecision(r) then evaluations + [Evaluate(x, r)] else evaluations);
      if !IsDecision(r) {
        continue;
      }
      var evaluation := Evaluate(x, r);
      evaluations := evaluations + [evaluation];
      if !evaluation.eligible {
        continue;
      }
      if evaluation.action == Restrict {
        restrict := true;
      } else if evaluation.action == Enable && coolingComplete {
        enable := true;
      }
    }
    assert x.linked[..|x.linked|] == x.linked;
  }

  function ConcernIn(x: Inputs): Reason -> bool {
    (reason: Reason) => Concern(x, reason)
  }

  ghost predicate AreConcerns(x: Inputs, reasons: seq<Reason>) {
    reasons == Where(ConcernIn(x), AllReasons(x)[..5])
  }

  /** One reason more, or not. */
  lemma NextConcern(x: Inputs, i: nat, before: seq<Reason>, after: seq<Reason>)
    requires i < 5 && before == Where(ConcernIn(x), AllReasons(x)[..i])
    requires after == if Concern(x, AllReasons(x)[i]) then before + [AllReasons(x)[i]] else before
    ensures after == Where(ConcernIn(x), AllReasons(x)[..i + 1])
  {
    WhereNext(ConcernIn(x), AllReasons(x), i);
  }

  lemma ImpactConcern(x: Inputs, before: seq<Reason>, after: seq<Reason>)
    requires before == Where(ConcernIn(x), AllReasons(x)[..1])
    requires after == match DeclaredImpact(x.record.tags) {
                        case None => before + [ImpactMissing]
                        case Some(impact) => if impact != "none" then before + [ImpactDeclared(impact)] else before
                      }
    ensures after == Where(ConcernIn(x), AllReasons(x)[..3])
  {
    var middle := if DeclaredImpact(x.record.tags).None? then before + [ImpactMissing] else before;
    NextConcern(x, 1, before, middle);
    NextConcern(x, 2, middle, after);
  }

  /** Whether the record is published, and what it declares. */
  method OwnConcerns(x: Inputs) returns (reasons: seq<Reason>)
    ensures reasons == Where(ConcernIn(x), AllReasons(x)[..3])
  {
    var impact := DeclaredImpact(x.record.tags);
    reasons := if x.record.id !in x.anchored then [NotPublished] else [];
    NextConcern(x, 0, [], reasons);
    ghost var before := reasons;
    if impact.None? {
      reasons := reasons + [ImpactMissing];
    } else if impact.value != "none" {
      reasons := reasons + [ImpactDeclared(impact.value)];
    }
    ImpactConcern(x, before, reasons);
  }

  method Concerns(x: Inputs, windowActive: bool) returns (reasons: seq<Reason>)
    requires windowActive == InWindow(x)
    ensures AreConcerns(x, reasons)
  {
    reasons := OwnConcerns(x);
    ghost var before := reasons;
    if windowActive {
      reasons := reasons + [WindowActive];
    }
    NextConcern(x, 3, before, reasons);
    before := reasons;
    if exists r :: r in x.linked && IsRestriction(r) && Eligible(x, r) {
      reasons := reasons + [RecognisedRestriction];
    }
    NextConcern(x, 4, before, reasons);
  }

  lemma ConcernAt(x: Inputs, reasons: seq<Reason>, i: nat)
    requires AreConcerns(x, reasons) && i < 5
    ensures Concern(x, AllReasons(x)[i]) ==> reasons != []
  {
    assert AllReasons(x)[..5][i] in AllReasons(x)[..5];
  }

  lemma NoConcern(x: Inputs, reasons: seq<Reason>)
    requires AreConcerns(x, reasons)
    ensures reasons == [] <==> Published(x) && ConcernsNobody(x) && !InWindow(x) && !Restricted(x)
  {
    if reasons != [] {
      assert ConcernIn(x)(reasons[0]);
    }
    ConcernAt(x, reasons, 0);
    ConcernAt(x, reasons, 1);
    ConcernAt(x, reasons, 2);
    ConcernAt(x, reasons, 3);
    ConcernAt(x, reasons, 4);
  }

  lemma LastTwo(concern: Reason -> bool, given: Reason -> bool, all: seq<Reason>)
    requires |all| == 7 && forall reason :: reason in all[..5] ==> concern(reason) == given(reason)
    ensures Where(given, all) == Where(concern, all[..5]) + (if given(all[5]) then [all[5]] else [])
                               + (if given(all[6]) then [all[6]] else [])
  {
    WhereSame(concern, given, all[..5]);
    WhereNext(given, all, 5);
    WhereNext(given, all, 6);
    assert all[..7] == all;
  }

  lemma FirstFive(x: Inputs, reason: Reason)
    requires reason in AllReasons(x)[..5]
    ensures reason != DecisionRestricts
  {
    var i :| 0 <= i < 5 && AllReasons(x)[i] == reason;
  }

  lemma SameConcern(x: Inputs, reason: Reason)
    requires !Overridden(x) && reason != DecisionRestricts
    ensures ConcernIn(x)(reason) == GivenIn(x)(reason)
  {
  }

  lemma LastGiven(x: Inputs)
    requires !Overridden(x)
    ensures AllReasons(x)[5] == DecisionRestricts && GivenIn(x)(AllReasons(x)[5]) == Decided(x, Restrict)
    ensures !GivenIn(x)(AllReasons(x)[6])
  {
  }

  /** The concerns are reported unless a decision overrides them all. */
  lemma ReasonsGiven(x: Inputs, concerns: seq<Reason>)
    requires AreConcerns(x, concerns) && !Overridden(x)
    ensures Where(GivenIn(x), AllReasons(x)) == concerns + (if Decided(x, Restrict) then [DecisionRestricts] else [])
  {
    var all, concern, given := AllReasons(x), ConcernIn(x), GivenIn(x);
    forall reason | reason in all[..5]
      ensures concern(reason) == given(reason)
    {
      FirstFive(x, reason);
      SameConcern(x, reason);
    }
    LastTwo(concern, given, all);
    LastGiven(x);
  }

  lemma OneReasonGiven(x: Inputs)
    requires Overridden(x)
    ensures Where(GivenIn(x), AllReasons(x)) == [DecisionEnabled]
  {
    var all := AllReasons(x);
    WhereNone(GivenIn(x), all[..6]);
    WhereNext(GivenIn(x), all, 6);
    assert all[..7] == all;
  }

  /** The last part of `assess_responsible_publication`: how the decisions change the outcome. */
  method Conclude(x: Inputs, concerns: seq<Reason>, restrict: bool, enable: bool)
    returns (state: DiscoveryState, reasons: seq<Reason>)
    requires AreConcerns(x, concerns)
    requires restrict == Decided(x, Restrict) && enable == (Cooled(x) && Decided(x, Enable))
    ensures state == StateOf(x)
    ensures reasons == Where(GivenIn(x), AllReasons(x))
  {
    NoConcern(x, concerns);
    if Overridden(x) {
      OneReasonGiven(x);
    } else {
      ReasonsGiven(x, concerns);
    }
    reasons := concerns;
    var isProtected := concerns != [];
    if restrict {
      isProtected := true;
      reasons := reasons + [DecisionRestricts];
    } else if isProtected && enable && !Restricted(x) && !InWindow(x) {
      isProtected := false;
      reasons := [DecisionEnabled];
    }
    state := if !Published(x) then Unpublished
      else if !isProtected && ConcernsNobody(x) then Discoverable
      else if !isProtected then DiscoverableByDecision
      else Protected;
  }

  lemma OnePlace(flag: Flag, other: Flag)
    ensures Place(flag) == Place(other) <==> flag == other
  {
  }

  /** One flag more, or not. */
  method AddFlag(x: Inputs, flag: Flag, before: seq<Flag>) returns (flags: seq<Flag>)
    requires AreFlags(x, before, Place(flag))
    ensures AreFlags(x, flags, Place(flag) + 1)
  {
    flags := if HasKind(x, FlagKind(flag)) then before + [flag] else before;
    forall other
      ensures other in flags <==> Place(other) < Place(flag) + 1 && HasKind(x, FlagKind(other))
    {
      OnePlace(flag, other);
    }
  }

  method ReviewFlags(x: Inputs) returns (flags: seq<Flag>)
    ensures AreFlags(x, flags, 4)
  {
    flags := AddFlag(x, NoticesExist, []);
    flags := AddFlag(x, ResponsesExist, flags);
    flags := AddFlag(x, RestrictionsExist, flags);
    flags := AddFlag(x, DisputesExist, flags);
  }

  /** The challenge window: where it ends and whether it is open. */
  method ChallengeWindow(x: Inputs) returns (first: Option<int>, end: Option<int>, active: bool)
    ensures IsFirstNotice(x, x.linked, first) && active == InWindow(x)
    ensures end == WindowEnd(x, first)
  {
    first := FirstNotice(x);
    WindowOf(x, first);
    end, active := None, false;
    if first.Some? && x.chainHeight.Some? {
      end := Some(first.value + NonNegative(x.protectionBlocks));
      active := x.chainHeight.value < end.value;
    }
  }

  method Cooling(x: Inputs) returns (elapsed: Option<nat>, complete: bool)
    ensures elapsed == Elapsed(x)
    ensures complete == Cooled(x)
  {
    elapsed, complete := None, false;
    if x.chainHeight.Some? && x.record.id in x.heights {
      elapsed := Some(NonNegative(x.chainHeight.value - x.heights[x.record.id]));
      complete := elapsed.value >= NonNegative(x.coolingBlocks);
    }
  }

  /** The state and the reasons for it. */
  method Outcome(x: Inputs, windowActive: bool, coolingComplete: bool)
    returns (state: DiscoveryState, reasons: seq<Reason>, decisions: seq<Evaluation>)
    requires windowActive == InWindow(x) && coolingComplete == Cooled(x)
    ensures state == StateOf(x) && reasons == Where(GivenIn(x), AllReasons(x))
    ensures AreEvaluations(x, x.linked, decisions)
  {
    var concerns := Concerns(x, windowActive);
    var restrict, enable;
    restrict, enable, decisions := Decisions(x, coolingComplete);
    state, reasons := Conclude(x, concerns, restrict, enable);
  }

  method Context(x: Inputs) returns (context: map<Topic, seq<Summary>>)
    ensures IsContext(x, context)
  {
    context := map topic: Topic | true :: Summaries(x, KindOf(topic));
  }

  /** `assess_responsible_publication`. */
  method Assess(x: Inputs) returns (a: Assessment)
    ensures a.state == StateOf(x)
    ensures a.reasons == Where(GivenIn(x), AllReasons(x)) && AreFlags(x, a.flags, 4)
    ensures IsFirstNotice(x, x.linked, a.firstNotice) && a.windowActive == InWindow(x) && a.coolingComplete == Cooled(x)
    ensures a.windowEnd == WindowEnd(x, a.firstNotice) && a.blocksElapsed == Elapsed(x)
    ensures IsContext(x, a.context) && AreEvaluations(x, x.linked, a.decisions)
  {
    var flags := ReviewFlags(x);
    var first, windowEnd, windowActive := ChallengeWindow(x);
    var blocksElapsed, coolingComplete := Cooling(x);
    var state, reasons, decisions := Outcome(x, windowActive, coolingComplete);
    var context := Context(x);
    a := Assessment(
      state, reasons, flags, first, windowEnd, windowActive, blocksElapsed, coolingComplete, context, decisions);
  }

  // ---- what the profile promises --------------------------------------------------

  function Listed(state: DiscoveryState): bool {
    state == Discoverable || state == DiscoverableByDecision
  }

  ghost predicate SameRecords(a: seq<Record>, b: seq<Record>) {
    forall r :: r in a <==> r in b
  }

  /** The order and the repetition of linked records do not matter. */
  lemma OrderIsIrrelevant(x: Inputs, linked: seq<Record>)
    requires multiset(linked) == multiset(x.linked) || SameRecords(linked, x.linked)
    ensures StateOf(x.(linked := linked)) == StateOf(x)
    ensures forall reason :: Gives(x.(linked := linked), reason) <==> Gives(x, reason)
  {
    forall r
      ensures r in linked <==> r in x.linked
    {
      if multiset(linked) == multiset(x.linked) {
        assert r in linked <==> r in multiset(linked);
        assert r in x.linked <==> r in multiset(x.linked);
      }
    }
    SameMembers(x, linked);
  }

  lemma SameMembers(x: Inputs, linked: seq<Record>)
    requires SameRecords(linked, x.linked)
    ensures var y := x.(linked := linked);
            && InWindow(y) == InWindow(x) && Restricted(y) == Restricted(x)
            && forall action :: Decided(y, action) == Decided(x, action)
  {
  }

  /** No enabling decision, whoever takes it, gets past a recognised restriction. */
  lemma RestrictionWins(x: Inputs, others: seq<Record>)
    requires Restricted(x) || Decided(x, Restrict)
    requires forall r :: r in x.linked ==> r in others
    ensures !Listed(StateOf(x.(linked := others)))
  {
    var y := x.(linked := others);
    if Restricted(x) {
      var r :| r in x.linked && IsRestriction(r) && Eligible(x, r);
      assert r in y.linked && IsRestriction(r) && Eligible(y, r);
    } else {
      var r :| r in x.linked && IsDecision(r) && Eligible(x, r) && ActionOf(r.tags) == Restrict;
      assert r in y.linked && IsDecision(r) && Eligible(y, r);
    }
  }

  /** What is listed at a known height stays listed as the chain grows. */
  lemma StaysListed(x: Inputs, later: int)
    requires x.chainHeight.Some? && x.chainHeight.value <= later && Listed(StateOf(x))
    ensures Listed(StateOf(x.(chainHeight := Some(later))))
  {
    var y := x.(chainHeight := Some(later));
    assert Restricted(y) == Restricted(x);
    assert Decided(y, Restrict) == Decided(x, Restrict) && Decided(y, Enable) == Decided(x, Enable);
    if InWindow(y) {
      assert InWindow(x);
    }
  }

  /** The records of a list that count on their own: anchored, by a recognised author. */
  ghost predicate SameEligible(x: Inputs, a: seq<Record>, b: seq<Record>) {
    forall r :: Eligible(x, r) ==> (r in a <==> r in b)
  }

  /** Everybody else reaches the outcome through the challenge window only. */
  lemma OnlyTheWindow(x: Inputs, linked: seq<Record>)
    requires SameEligible(x, linked, x.linked)
    requires InWindow(x.(linked := linked)) == InWindow(x)
    ensures StateOf(x.(linked := linked)) == StateOf(x)
  {
    var y := x.(linked := linked);
    assert forall r :: Eligible(y, r) == Eligible(x, r);
    assert Restricted(y) == Restricted(x);
    assert Decided(y, Restrict) == Decided(x, Restrict) && Decided(y, Enable) == Decided(x, Enable);
  }

  /** A notice anchored at or above the first one leaves the window as it was. */
  lemma LaterNoticesDoNotExtend(x: Inputs, first: int, more: seq<Record>)
    requires IsFirstNotice(x, x.linked, Some(first))
    requires forall r :: r in more && AnchoredNotice(x, r) ==> first <= x.heights[r.id]
    ensures IsFirstNotice(x, x.linked + more, Some(first))
    ensures InWindow(x.(linked := x.linked + more)) == InWindow(x)
  {
    var y := x.(linked := x.linked + more);
    var r :| r in x.linked && AnchoredNotice(x, r) && x.heights[r.id] == first;
    assert r in y.linked && AnchoredNotice(y, r);
    assert IsFirstNotice(y, y.linked, Some(first));
    WindowOf(x, Some(first));
    WindowOf(y, Some(first));
  }

  /** From the end of the window on, the outcome depends on the record and on the anchored
      records by recognised authors, whatever else is linked. */
  lemma AfterTheWindow(x: Inputs, first: int, linked: seq<Record>)
    requires IsFirstNotice(x, x.linked, Some(first)) && x.chainHeight.Some?
    requires x.chainHeight.value >= first + NonNegative(x.protectionBlocks)
    requires SameEligible(x, linked, x.linked)
    requires forall r :: r in x.linked && AnchoredNotice(x, r) && x.heights[r.id] == first ==> r in linked
    ensures StateOf(x.(linked := linked)) == StateOf(x)
  {
    var y := x.(linked := linked);
    WindowOf(x, Some(first));
    var r :| r in x.linked && AnchoredNotice(x, r) && x.heights[r.id] == first;
    assert r in y.linked && AnchoredNotice(y, r);
    OnlyTheWindow(x, linked);
  }
}

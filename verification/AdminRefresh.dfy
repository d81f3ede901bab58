/** Refreshing organisation reports over paginated, asynchronous requests: stale replies are
    dropped, and only a complete report replaces the last complete one. */
module AdminRefresh {
  import opened AdminParser

  const MAX_ADMIN_PAGES := 64

  /** The progress of one capability: `rows` belong to the running refresh, `last` to the last
      complete report. */
  datatype Report = Report(pending: bool, succeeded: bool, partial: bool, pages: nat, rows: seq<Row>, last: seq<Row>)

  datatype Request = ModelsRequest(generation: nat) | PageRequest(capability: Capability, generation: nat)

  /** `requests` holds every request whose reply has not been handled, superseded or not. */
  datatype Provider = Provider(generation: nat, loading: bool, connectivityPending: bool, usage: Report, cost: Report,
                               requests: set<Request>)

  datatype Answer = NetworkError | BadDocument | Document(page: Page)

  datatype Event =
    | Refresh(hasApiKey: bool, hasAdminKey: bool)
    | CancelRefresh
    | ModelsReply(generation: nat)
    | PageReply(capability: Capability, generation: nat, answer: Answer)

  const NO_REPORT := Report(false, false, false, 0, [], [])

  const INITIAL := Provider(0, false, false, NO_REPORT, NO_REPORT, {})

  function ReportOf(p: Provider, c: Capability): Report {
    match c case Usage => p.usage case Cost => p.cost
  }

  function WithReport(p: Provider, c: Capability, r: Report): Provider {
    match c case Usage => p.(usage := r) case Cost => p.(cost := r)
  }

  // ---------- Steps ----------

  function Begun(r: Report, hasAdminKey: bool): Report {
    Report(hasAdminKey, false, false, if hasAdminKey then 1 else 0, [], r.last)
  }

  function Begin(p: Provider, hasApiKey: bool, hasAdminKey: bool): Provider {
    var g := p.generation + 1;
    Provider(g, true, hasApiKey, Begun(p.usage, hasAdminKey), Begun(p.cost, hasAdminKey),
             p.requests + (if hasApiKey then {ModelsRequest(g)} else {})
                        + (if hasAdminKey then {PageRequest(Usage, g), PageRequest(Cost, g)} else {}))
  }

  function Finished(r: Report, complete: bool): Report {
    r.(pending := false, succeeded := complete, partial := !complete && r.rows != [],
       last := if complete then r.rows else r.last)
  }

  predicate WantsMore(page: Page, pages: nat)
    requires WellFormed(page)
  {
    page.hasMore.value && page.nextPage != "" && pages < MAX_ADMIN_PAGES
  }

  /** One page: fold it, then ask for the next one or finish. */
  function Answered(r: Report, c: Capability, answer: Answer): Report {
    if !answer.Document? then Finished(r, false)
    else
      var folded := r.(rows := Folded(r.rows, PageAccepted(c, answer.page)));
      if !ValidPage(c, answer.page) then Finished(folded, false)
      else if WantsMore(answer.page, r.pages) then folded.(pages := r.pages + 1)
      else Finished(folded, !answer.page.hasMore.value)
  }

  predicate AsksAgain(r: Report, c: Capability, answer: Answer) {
    answer.Document? && ValidPage(c, answer.page) && WantsMore(answer.page, r.pages)
  }

  function Finalized(p: Provider): Provider {
    if p.connectivityPending || p.usage.pending || p.cost.pending then p else p.(loading := false)
  }

  function HandledPage(p: Provider, c: Capability, g: nat, answer: Answer): Provider {
    var left := p.(requests := p.requests - {PageRequest(c, g)});
    if g != p.generation then left
    else
      var next := WithReport(left, c, Answered(ReportOf(p, c), c, answer));
      if AsksAgain(ReportOf(p, c), c, answer) then next.(requests := p.requests) else Finalized(next)
  }

  function HandledModels(p: Provider, g: nat): Provider {
    var left := p.(requests := p.requests - {ModelsRequest(g)});
    if g != p.generation then left else Finalized(left.(connectivityPending := false))
  }

  function Step(p: Provider, e: Event): Provider {
    match e
    case Refresh(api, admin) => if api || admin then Begin(p, api, admin) else p
    case CancelRefresh => p.(generation := p.generation + 1, loading := false)
    case ModelsReply(g) => HandledModels(p, g)
    case PageReply(c, g, answer) => HandledPage(p, c, g, answer)
  }

  /** Replies answer requests, once. */
  predicate CanHappen(p: Provider, e: Event) {
    match e
    case ModelsReply(g) => ModelsRequest(g) in p.requests
    case PageReply(c, g, _) => PageRequest(c, g) in p.requests
    case _ => true
  }

  predicate IsRun(run: seq<Event>)
    decreases |run|, 0
  {
    run == [] || (IsRun(run[..|run| - 1]) && CanHappen(After(run[..|run| - 1]), run[|run| - 1]))
  }

  function After(run: seq<Event>): Provider
    requires IsRun(run)
    decreases |run|, 1
  {
    if run == [] then INITIAL else Step(After(run[..|run| - 1]), run[|run| - 1])
  }

  // ---------- What the last rows are ----------

  /** The answers to the page requests of one capability in one generation. */
  function Replies(run: seq<Event>, c: Capability, g: nat): seq<Answer> {
    if run == [] then []
    else
      var earlier, last := Replies(run[..|run| - 1], c, g), run[|run| - 1];
      if last.PageReply? && last.capability == c && last.generation == g then earlier + [last.answer] else earlier
  }

  function Results(c: Capability, answers: seq<Answer>): seq<Row> {
    if answers == [] then []
    else
      var earlier, last := Results(c, answers[..|answers| - 1]), answers[|answers| - 1];
      if last.Document? then earlier + PageAccepted(c, last.page) else earlier
  }

  /** A valid page that announces another one. */
  predicate IsInner(c: Capability, answer: Answer) {
    answer.Document? && ValidPage(c, answer.page) && answer.page.hasMore.value && answer.page.nextPage != ""
  }

  predicate IsLastPage(c: Capability, answer: Answer) {
    answer.Document? && ValidPage(c, answer.page) && !answer.page.hasMore.value
  }

  predicate Unfinished(c: Capability, answers: seq<Answer>) {
    |answers| < 64 && forall i :: 0 <= i < |answers| ==> IsInner(c, answers[i])
  }

  /** At most 64 valid pages, the last one without a successor. */
  predicate Complete(c: Capability, answers: seq<Answer>) {
    answers != [] && Unfinished(c, answers[..|answers| - 1]) && IsLastPage(c, answers[|answers| - 1])
  }

  /** `rows` are the results of the complete report of generation `g`. */
  predicate IsReport(run: seq<Event>, c: Capability, g: nat, rows: seq<Row>) {
    Complete(c, Replies(run, c, g)) && rows == Folded([], Results(c, Replies(run, c, g)))
  }

  predicate SettledReport(run: seq<Event>, p: Provider, c: Capability, g: nat) {
    g <= p.generation && PageRequest(c, g) !in p.requests && IsReport(run, c, g, ReportOf(p, c).last)
  }

  ghost predicate LastIsComplete(run: seq<Event>, p: Provider, c: Capability) {
    ReportOf(p, c).last == [] || exists g :: SettledReport(run, p, c, g)
  }

  /** While a page is awaited, the rows are those of the pages so far. */
  predicate RowsMatch(run: seq<Event>, p: Provider, c: Capability) {
    PageRequest(c, p.generation) in p.requests ==>
      var answers := Replies(run, c, p.generation);
      && ReportOf(p, c).pending
      && Unfinished(c, answers)
      && ReportOf(p, c).pages == |answers| + 1
      && ReportOf(p, c).rows == Folded([], Results(c, answers))
  }

  ghost predicate NothingAhead(run: seq<Event>, p: Provider) {
    && (forall r :: r in p.requests ==> r.generation <= p.generation)
    && (forall c, g :: g > p.generation ==> Replies(run, c, g) == [])
  }

  ghost predicate Sound(run: seq<Event>, p: Provider, c: Capability) {
    NothingAhead(run, p) && RowsMatch(run, p, c) && LastIsComplete(run, p, c)
  }

  // ---------- Every run is sound ----------

  lemma RepliesNext(run: seq<Event>, e: Event, c: Capability, g: nat)
    ensures Replies(run + [e], c, g) ==
              Replies(run, c, g) + if e.PageReply? && e.capability == c && e.generation == g then [e.answer] else []
  {
    assert (run + [e])[..|run|] == run;
  }

  lemma AheadStays(run: seq<Event>, p: Provider, e: Event)
    requires NothingAhead(run, p) && CanHappen(p, e)
    ensures NothingAhead(run + [e], Step(p, e))
  {
    forall c, g: nat | g > Step(p, e).generation
      ensures Replies(run + [e], c, g) == []
    {
      RepliesNext(run, e, c, g);
    }
  }

  predicate Concerns(p: Provider, e: Event, c: Capability) {
    e.PageReply? && e.capability == c && e.generation == p.generation
  }

  /** Only the awaited page of a capability touches its report. */
  lemma StepOnReport(p: Provider, e: Event, c: Capability)
    ensures Concerns(p, e, c) ==> ReportOf(Step(p, e), c) == Answered(ReportOf(p, c), c, e.answer)
    ensures !Concerns(p, e, c) ==> ReportOf(Step(p, e), c).last == ReportOf(p, c).last
  {}

  /** An answered request of a past or present generation is not asked again. */
  lemma NoNewOldRequests(p: Provider, e: Event, c: Capability, g: nat)
    requires CanHappen(p, e) && g <= p.generation && PageRequest(c, g) !in p.requests
    ensures PageRequest(c, g) !in Step(p, e).requests
    ensures g <= Step(p, e).generation
  {}

  /** A settled report stays settled while its rows are kept: no further reply can come. */
  lemma SettledStays(run: seq<Event>, p: Provider, e: Event, next: Provider, c: Capability)
    requires CanHappen(p, e) && next == Step(p, e) && LastIsComplete(run, p, c) && ReportOf(next, c).last == ReportOf(p, c).last
    ensures LastIsComplete(run + [e], next, c)
  {
    if ReportOf(p, c).last != [] {
      var g :| SettledReport(run, p, c, g);
      RepliesNext(run, e, c, g);
      NoNewOldRequests(p, e, c, g);
      assert e.PageReply? && e.capability == c ==> e.generation != g;
      assert SettledReport(run + [e], next, c, g);
    }
  }

  lemma ReportUntouched(p: Provider, e: Event, c: Capability)
    requires !Concerns(p, e, c) && CanHappen(p, e) && Step(p, e).generation == p.generation
    ensures ReportOf(Step(p, e), c) == ReportOf(p, c)
    ensures PageRequest(c, p.generation) in Step(p, e).requests ==> PageRequest(c, p.generation) in p.requests
  {}

  lemma BeginsAfresh(p: Provider, e: Event, c: Capability)
    requires Step(p, e).generation != p.generation
    requires forall r :: r in p.requests ==> r.generation <= p.generation
    ensures Step(p, e).generation == p.generation + 1
    ensures PageRequest(c, p.generation + 1) in Step(p, e).requests ==>
              ReportOf(Step(p, e), c) == Begun(ReportOf(p, c), true)
  {}

  /** A new generation starts with no answers and, where it asks, an empty report. */
  lemma FreshRowsMatch(run: seq<Event>, p: Provider, next: Provider, c: Capability)
    requires Replies(run, c, next.generation) == []
    requires PageRequest(c, next.generation) in next.requests ==> ReportOf(next, c) == Begun(ReportOf(p, c), true)
    ensures RowsMatch(run, next, c)
  {}

  lemma OtherEventKeepsRows(run: seq<Event>, p: Provider, e: Event, c: Capability)
    requires NothingAhead(run, p) && RowsMatch(run, p, c) && CanHappen(p, e) && !Concerns(p, e, c)
    ensures RowsMatch(run + [e], Step(p, e), c) && ReportOf(Step(p, e), c).last == ReportOf(p, c).last
  {
    StepOnReport(p, e, c);
    if Step(p, e).generation == p.generation {
      ReportUntouched(p, e, c);
      RepliesNext(run, e, c, p.generation);
      hide Step, CanHappen, NothingAhead, Folded, Results;
    } else {
      BeginsAfresh(p, e, c);
      NoRepliesAhead(run, e, p, c);
      FreshRowsMatch(run + [e], p, Step(p, e), c);
    }
  }

  lemma NoRepliesAhead(run: seq<Event>, e: Event, p: Provider, c: Capability)
    requires NothingAhead(run, p) && CanHappen(p, e)
    ensures Replies(run + [e], c, p.generation + 1) == []
  {
    RepliesNext(run, e, c, p.generation + 1);
  }

  lemma ResultsNext(c: Capability, answers: seq<Answer>, page: Page)
    ensures Folded([], Results(c, answers + [Document(page)])) == Folded(Folded([], Results(c, answers)), PageAccepted(c, page))
  {
    assert (answers + [Document(page)])[..|answers|] == answers;
    FoldedSplits([], Results(c, answers), PageAccepted(c, page));
  }

  /** The three outcomes of a page; the next one is asked for while fewer than 64 were. */
  lemma PageOutcomes(r: Report, c: Capability, answer: Answer)
    ensures AsksAgain(r, c, answer) <==> IsInner(c, answer) && r.pages < 64
    ensures AsksAgain(r, c, answer) ==>
              Answered(r, c, answer) == r.(rows := Folded(r.rows, PageAccepted(c, answer.page)), pages := r.pages + 1)
    ensures !AsksAgain(r, c, answer) && IsLastPage(c, answer) ==>
              Answered(r, c, answer).last == Answered(r, c, answer).rows == Folded(r.rows, PageAccepted(c, answer.page))
    ensures !AsksAgain(r, c, answer) && !IsLastPage(c, answer) ==> Answered(r, c, answer).last == r.last
  {}

  lemma PageRequests(p: Provider, c: Capability, answer: Answer)
    requires PageRequest(c, p.generation) in p.requests
    ensures
      var next := Step(p, PageReply(c, p.generation, answer));
      && next.generation == p.generation
      && (PageRequest(c, p.generation) in next.requests <==> AsksAgain(ReportOf(p, c), c, answer))
  {}

  /** An awaited page continues the report, completes it, or leaves the last rows alone. */
  lemma PageKeepsSound(run: seq<Event>, p: Provider, c: Capability, answer: Answer, e: Event, next: Provider)
    requires RowsMatch(run, p, c) && LastIsComplete(run, p, c) && PageRequest(c, p.generation) in p.requests
    requires e == PageReply(c, p.generation, answer) && next == Step(p, e)
    ensures RowsMatch(run + [e], next, c) && LastIsComplete(run + [e], next, c)
  {
    var g, r, answers := p.generation, ReportOf(p, c), Replies(run, c, p.generation);
    RepliesNext(run, e, c, g);
    StepOnReport(p, e, c);
    PageOutcomes(r, c, answer);
    PageRequests(p, c, answer);
    if answer.Document? {
      ResultsNext(c, answers, answer.page);
    }
    if !AsksAgain(r, c, answer) && IsLastPage(c, answer) {
      assert (answers + [answer])[..|answers|] == answers;
      assert SettledReport(run + [e], next, c, g);
    } else {
      assert ReportOf(next, c).last == r.last;
      SettledStays(run, p, e, next, c);
    }
  }

  /** After every run the last rows of a capability are the folded results of one complete
      report, whatever was interrupted, refused or superseded meanwhile. */
  lemma {:induction false} RunIsSound(run: seq<Event>, c: Capability)
    requires IsRun(run)
    ensures Sound(run, After(run), c)
  {
    if run != [] {
      var init, e := run[..|run| - 1], run[|run| - 1];
      assert run == init + [e];
      RunIsSound(init, c);
      var p := After(init);
      AheadStays(init, p, e);
      if e.PageReply? && e.capability == c && e.generation == p.generation {
        PageKeepsSound(init, p, c, e.answer, e, Step(p, e));
      } else {
        OtherEventKeepsRows(init, p, e, c);
        SettledStays(init, p, e, Step(p, e), c);
      }
    }
  }

  /** Once all pages of the current report have come, its rows are the last ones. */
  ghost predicate KeepsFinished(run: seq<Event>, p: Provider, c: Capability) {
    var answers, r := Replies(run, c, p.generation), ReportOf(p, c);
    Complete(c, answers) ==>
      PageRequest(c, p.generation) !in p.requests && r.succeeded && !r.pending && r.last == Folded([], Results(c, answers))
  }

  lemma PageFinishes(run: seq<Event>, p: Provider, c: Capability, answer: Answer, e: Event, next: Provider)
    requires RowsMatch(run, p, c) && PageRequest(c, p.generation) in p.requests
    requires e == PageReply(c, p.generation, answer) && next == Step(p, e)
    ensures KeepsFinished(run + [e], next, c)
  {
    var r, answers := ReportOf(p, c), Replies(run, c, p.generation);
    RepliesNext(run, e, c, p.generation);
    StepOnReport(p, e, c);
    PageOutcomes(r, c, answer);
    PageRequests(p, c, answer);
    if IsLastPage(c, answer) {
      ResultsNext(c, answers, answer.page);
    }
  }

  lemma OtherEventKeepsFinished(run: seq<Event>, p: Provider, e: Event, c: Capability)
    requires NothingAhead(run, p) && KeepsFinished(run, p, c) && CanHappen(p, e) && !Concerns(p, e, c)
    ensures KeepsFinished(run + [e], Step(p, e), c)
  {
    if Step(p, e).generation == p.generation {
      ReportUntouched(p, e, c);
      RepliesNext(run, e, c, p.generation);
      hide Step, CanHappen, NothingAhead, Folded, Results, Complete;
    } else {
      BeginsAfresh(p, e, c);
      NoRepliesAhead(run, e, p, c);
    }
  }

  /** Over every run: when the current report of a capability is complete, its rows are shown. */
  lemma {:induction false} RunKeepsComplete(run: seq<Event>, c: Capability)
    requires IsRun(run)
    ensures KeepsFinished(run, After(run), c)
  {
    if run != [] {
      var init, e := run[..|run| - 1], run[|run| - 1];
      assert run == init + [e];
      RunKeepsComplete(init, c);
      RunIsSound(init, c);
      var p := After(init);
      hide Step, KeepsFinished, RowsMatch, LastIsComplete;
      if e.PageReply? && e.capability == c && e.generation == p.generation {
        PageFinishes(init, p, c, e.answer, e, Step(p, e));
      } else {
        OtherEventKeepsFinished(init, p, e, c);
      }
    }
  }

  /** The last rows change only by the last page of a valid report of the current refresh. */
  lemma LastChangesOnlyWhenComplete(p: Provider, e: Event, c: Capability)
    ensures ReportOf(Step(p, e), c).last != ReportOf(p, c).last ==>
              && Concerns(p, e, c) && IsLastPage(c, e.answer)
              && ReportOf(Step(p, e), c).succeeded && !ReportOf(Step(p, e), c).pending
  {
    StepOnReport(p, e, c);
    if Concerns(p, e, c) {
      PageOutcomes(ReportOf(p, c), c, e.answer);
      assert ReportOf(Step(p, e), c) == Answered(ReportOf(p, c), c, e.answer);
    }
  }

  /** A capability that ends without its last page keeps the last rows, has not succeeded, and
      is partial exactly when some rows had arrived. */
  lemma FailureKeepsLast(p: Provider, e: Event, c: Capability)
    requires Concerns(p, e, c) && !IsLastPage(c, e.answer) && !AsksAgain(ReportOf(p, c), c, e.answer)
    ensures
      var r := ReportOf(Step(p, e), c);
      && r.last == ReportOf(p, c).last && !r.pending && !r.succeeded
      && (r.partial <==> r.rows != [])
  {
    StepOnReport(p, e, c);
    PageOutcomes(ReportOf(p, c), c, e.answer);
    assert ReportOf(Step(p, e), c) == Answered(ReportOf(p, c), c, e.answer);
  }

  // ---------- No refresh hangs ----------

  /** A refresh that shows as loading waits for every part that is pending, and for one at least. */
  predicate Waits(p: Provider) {
    p.loading ==>
      && (p.connectivityPending || p.usage.pending || p.cost.pending)
      && (p.connectivityPending ==> ModelsRequest(p.generation) in p.requests)
      && (p.usage.pending ==> PageRequest(Usage, p.generation) in p.requests)
      && (p.cost.pending ==> PageRequest(Cost, p.generation) in p.requests)
  }

  lemma StepWaits(p: Provider, e: Event)
    requires Waits(p) && CanHappen(p, e)
    ensures Waits(Step(p, e))
  {}

  lemma {:induction false} RunWaits(run: seq<Event>)
    requires IsRun(run)
    ensures Waits(After(run))
  {
    if run != [] {
      RunWaits(run[..|run| - 1]);
      StepWaits(After(run[..|run| - 1]), run[|run| - 1]);
    }
  }
}

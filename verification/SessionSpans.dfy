/** What one record does to the session it belongs to: its time span and the doubts noted on it. */
module SessionSpans {
  import opened Options
  import opened SessionStore
  import opened SessionLedger

  /** The smaller and the larger of two times. */
  ghost predicate Spans(started: Time, lastSeen: Time, at: Time, a: Time, b: Time) {
    && started <= at <= lastSeen && started <= a && b <= lastSeen
    && (started == at || started == a) && (lastSeen == at || lastSeen == b)
  }

  /** The session as before, or new, with its time span widened to the record's and this coverage. */
  ghost predicate Widened(s: Store, later: Store, row: Row, coverage: Coverage) {
    && row.session in later.sessions && later.sessions - {row.session} == s.sessions - {row.session}
    && var now := later.sessions[row.session];
       && now.coverage == coverage
       && if row.session in s.sessions then
            var was := s.sessions[row.session];
            && now.tool == was.tool && now.project == was.project
            && Spans(now.started, now.lastSeen, row.stamp.at, was.started, was.lastSeen)
          else
            && now.tool == (if row.Snapshot? then Codex else ClaudeCode) && now.project == row.project
            && now.started == now.lastSeen == row.stamp.at
  }

  function CoverageOf(s: Store, session: SessionId): Coverage {
    if session in s.sessions then s.sessions[session].coverage else Reported
  }

  /** Doubt is only noted on a session without doubts. */
  function Doubted(coverage: Coverage, doubt: bool, why: Coverage): Coverage {
    if coverage.Reported? && doubt then why else coverage
  }

  lemma TouchWidens(s: Store, later: Store, row: Row)
    requires later.sessions == Touch(s.sessions, row)
    ensures Widened(s, later, row, CoverageOf(s, row.session))
  {}

  lemma MarkWidens(s: Store, mid: Store, later: Store, row: Row, was: Coverage, doubt: bool, why: Coverage)
    requires Widened(s, mid, row, was) && later.sessions == MarkIf(mid.sessions, doubt, row.session, why)
    ensures Widened(s, later, row, Doubted(was, doubt, why))
  {
    hide Spans;
  }

  lemma ForceWidens(s: Store, mid: Store, later: Store, row: Row, was: Coverage, why: Coverage)
    requires Widened(s, mid, row, was) && later.sessions == Force(mid.sessions, row.session, why)
    ensures Widened(s, later, row, why)
  {
    hide Spans;
  }

  lemma TouchedEarly(s: Store, touched: Store, row: Row, env: Env)
    requires touched == s.(sessions := MarkIf(Touch(s.sessions, row), Outside(row, env), row.session, PartialRetention))
    ensures Widened(s, touched, row, Doubted(CoverageOf(s, row.session), row.stamp.at < env.boundary, PartialRetention))
  {
    var mid := s.(sessions := Touch(s.sessions, row));
    TouchWidens(s, mid, row);
    MarkWidens(s, mid, touched, row, CoverageOf(s, row.session), row.stamp.at < env.boundary, PartialRetention);
  }

  /** A message after the cutoff is seen by its session, with doubt about a missing id, about a
      contradiction, and about partial usage; an old or quarantined one with an id is not. */
  lemma SessionOfMessage(s: Store, item: Item)
    requires item.row.Message?
    ensures
      var row, env, later := item.row, item.env, Import(s, item);
      var was := CoverageOf(s, row.session);
      if env.cutoff.Some? && row.stamp.at <= env.cutoff.value then later == s
      else if row.message.None? then
        Widened(s, later, row, Doubted(Doubted(was, row.stamp.at < env.boundary, PartialRetention), true, PartialIdentity))
      else
        var id := MessageId(row.session, row.message.value);
        if row.stamp.at < env.boundary || id in s.conflicts then later == s
        else if id in s.events && id in later.conflicts then Widened(s, later, row, Doubted(was, true, PartialConflict))
        else Widened(s, later, row, Doubted(was, row.usagePartial, PartialUsage))
  {
    hide Widened, Touch, Mark, Doubted, CoverageOf, Disagree, Merged;
    var row, env, later := item.row, item.env, Import(s, item);
    var was, touched := CoverageOf(s, row.session), s.(sessions := Touch(s.sessions, row));
    TouchWidens(s, touched, row);
    if env.Cleared(row.At()) {
    } else if row.message.None? {
      var mid := s.(sessions := MarkIf(Touch(s.sessions, row), Outside(row, env), row.session, PartialRetention));
      TouchedEarly(s, mid, row, env);
      MarkWidens(s, mid, later, row, Doubted(was, row.stamp.at < env.boundary, PartialRetention), true, PartialIdentity);
    } else if !Outside(row, env) && row.Id() !in s.conflicts {
      if Contradicts(s, row) {
        MarkWidens(s, touched, later, row, was, true, PartialConflict);
      } else {
        MarkWidens(s, touched, later, row, was, row.usagePartial, PartialUsage);
      }
    }
  }

  /** A snapshot that is later than the cutoff and has no event yet is seen by its session;
      what it was is noted on the session, and nothing else about the session changes. */
  lemma SessionOfSnapshot(s: Store, item: Item)
    requires item.row.Snapshot?
    ensures
      var row, env, later, session := item.row, item.env, Import(s, item), item.row.session;
      var was := Doubted(CoverageOf(s, session), row.stamp.at < env.boundary, PartialRetention);
      if (env.cutoff.Some? && row.stamp.at <= env.cutoff.value) || SnapshotId(session, row.stamp, row.tokens) in s.events
      then later == s
      else Widened(s, later, row,
             if row.lineageUnverified then Doubted(was, true, PartialLineage)
             else if session !in s.counters then (if StartsAtZero(item) then was else PartialRebaseline)
             else if Saves(s, item, session) && Falls(s, item, session) then PartialReset
             else was)
  {
    var row, env, session := item.row, item.env, item.row.session;
    var touched := s.(sessions := MarkIf(Touch(s.sessions, row), Outside(row, env), session, PartialRetention));
    var was := Doubted(CoverageOf(s, session), row.stamp.at < env.boundary, PartialRetention);
    var later := Import(s, item);
    if !((env.cutoff.Some? && row.stamp.at <= env.cutoff.value) || SnapshotId(session, row.stamp, row.tokens) in s.events) {
      TouchedEarly(s, touched, row, env);
      if row.lineageUnverified {
        MarkWidens(s, touched, later, row, was, true, PartialLineage);
      } else {
        Verdicts(s, item, session);
        CountWidens(s, touched, item, was);
      }
    }
    hide Widened, Judge, LeavesEvent, Saves, Falls, StartsAtZero, Touch, MarkIf;
  }

  lemma CountWidens(s: Store, touched: Store, item: Item, was: Coverage)
    requires item.row.Snapshot? && Widened(s, touched, item.row, was) && touched.counters == s.counters
    ensures
      var v, later := Judge(item.row, Saved(s, item.row.session), item.env), Count(touched, item.row, item.env);
      Widened(s, later, item.row, if v.save && v.baselineOnly then PartialRebaseline else if v.save && v.reset then PartialReset else was)
  {
    var v, later := Judge(item.row, Saved(s, item.row.session), item.env), Count(touched, item.row, item.env);
    if v.save && v.baselineOnly {
      ForceWidens(s, touched, later, item.row, was, PartialRebaseline);
    } else if v.save && v.reset {
      ForceWidens(s, touched, later, item.row, was, PartialReset);
    }
    hide Judge, Force, LeavesEvent, Spans;
  }
}

/** The local session database as values, and what importing one parsed record does to it. */
module SessionStore {
  import opened Bounds
  import opened Options

  type Time = int  // milliseconds

  type SessionId = string

  datatype Tool = Codex | ClaudeCode

  datatype Field = Input | Output | CacheRead | CacheWrite

  /** Token counts by field; an absent field is a missing column. */
  type Tokens = map<Field, int>

  /** An instant together with the spelling it had in the file. */
  datatype Stamp = Stamp(at: Time, spelling: string)

  /** Event identities are keyed hashes of these parts, so distinct parts stay distinct. */
  datatype EventId =
    | SnapshotId(session: SessionId, stamp: Stamp, tokens: Tokens)
    | MessageId(session: SessionId, message: string)

  /** A parsed record with a session, a project and a valid timestamp. `created` is the
      creation time that the session's own metadata proves; a message without an id has a
      partial identity. */
  datatype Row =
    | Snapshot(session: SessionId, project: string, stamp: Stamp, model: string, tokens: Tokens,
               lineageUnverified: bool, created: Option<Time>)
    | Message(session: SessionId, project: string, stamp: Stamp, model: string, tokens: Tokens,
              message: Option<string>, usagePartial: bool)
  {
    function At(): Time {
      stamp.at
    }

    predicate Identified() {
      Message? ==> message.Some?
    }

    function Id(): EventId
      requires Identified()
    {
      if Snapshot? then SnapshotId(session, stamp, tokens) else MessageId(session, message.value)
    }
  }

  datatype Coverage =
    | Reported | PartialRetention | PartialIdentity | PartialLineage | PartialConflict | PartialUsage
    | PartialRebaseline | PartialReset

  datatype Session = Session(tool: Tool, project: string, started: Time, lastSeen: Time, coverage: Coverage)

  datatype Event = Event(session: SessionId, at: Time, model: string, tokens: Tokens)

  datatype Counter = Counter(at: Time, tokens: Tokens)

  datatype Store = Store(sessions: map<SessionId, Session>, events: map<EventId, Event>,
                         counters: map<SessionId, Counter>, conflicts: set<EventId>, cutoffs: map<Tool, Time>)

  /** What an import knows besides the record: the clear cutoff it read, a pending
      rebaseline flag, and the retention boundary. */
  datatype Env = Env(cutoff: Option<Time>, flagged: bool, boundary: Time) {
    predicate Rebaselining() {
      cutoff.Some? || flagged
    }

    predicate Cleared(at: Time) {
      cutoff.Some? && at <= cutoff.value
    }
  }

  // ---------- Sessions ----------

  function Touch(sessions: map<SessionId, Session>, row: Row): map<SessionId, Session> {
    var tool := if row.Snapshot? then Codex else ClaudeCode;
    if row.session in sessions then
      var s := sessions[row.session];
      sessions[row.session := s.(started := Min(s.started, row.At()), lastSeen := Max(s.lastSeen, row.At()))]
    else sessions[row.session := Session(tool, row.project, row.At(), row.At(), Reported)]
  }

  /** Degrades a session that was reported so far. */
  function Mark(sessions: map<SessionId, Session>, session: SessionId, coverage: Coverage): map<SessionId, Session> {
    if session in sessions && sessions[session].coverage.Reported?
    then sessions[session := sessions[session].(coverage := coverage)]
    else sessions
  }

  function Force(sessions: map<SessionId, Session>, session: SessionId, coverage: Coverage): map<SessionId, Session> {
    if session in sessions then sessions[session := sessions[session].(coverage := coverage)] else sessions
  }

  function MarkIf(sessions: map<SessionId, Session>, doubt: bool, session: SessionId, coverage: Coverage)
    : map<SessionId, Session>
  {
    if doubt then Mark(sessions, session, coverage) else sessions
  }

  // ---------- Cumulative snapshots ----------

  predicate CreatedAfterClear(row: Row, env: Env)
    requires row.Snapshot?
  {
    row.created.Some? && row.created.value <= row.At() && (env.cutoff.Some? ==> row.created.value > env.cutoff.value)
  }

  /** Fields on which `tokens` repeats a saved counter. */
  predicate Repeats(tokens: Tokens, saved: Tokens) {
    forall f :: f in tokens ==> f in saved && saved[f] == tokens[f]
  }

  predicate Decreases(tokens: Tokens, saved: Tokens) {
    exists f :: f in tokens && f in saved && tokens[f] < saved[f]
  }

  /** The growth of the fields both know. */
  function Growth(tokens: Tokens, saved: Tokens): Tokens {
    map f | f in tokens && f in saved :: tokens[f] - saved[f]
  }

  datatype Verdict = Verdict(save: bool, reset: bool, baselineOnly: bool, deltas: Tokens)

  /** What a snapshot means against the session's saved counter. */
  function Judge(row: Row, saved: Option<Counter>, env: Env): Verdict
    requires row.Snapshot?
  {
    match saved
    case None =>
      var baselineOnly := env.Rebaselining() && !CreatedAfterClear(row, env);
      Verdict(true, false, baselineOnly, if baselineOnly then map[] else row.tokens)
    case Some(counter) =>
      if counter.at > row.At() || Repeats(row.tokens, counter.tokens) then Verdict(false, false, false, map[])
      else if Decreases(row.tokens, counter.tokens) then Verdict(true, true, false, map[])
      else Verdict(true, false, false, Growth(row.tokens, counter.tokens))
  }

  function Saved(s: Store, session: SessionId): Option<Counter> {
    if session in s.counters then Some(s.counters[session]) else None
  }

  predicate Outside(row: Row, env: Env) {
    row.At() < env.boundary
  }

  /** Whether the verdict leaves a usage event behind. */
  predicate LeavesEvent(v: Verdict, row: Row, env: Env) {
    v.save && !Outside(row, env) && !(env.Rebaselining() && v.deltas == map[])
  }

  function Count(s: Store, row: Row, env: Env): Store
    requires row.Snapshot?
  {
    var saved := Saved(s, row.session);
    var v := Judge(row, saved, env);
    if !v.save then s
    else
      var sessions := if v.baselineOnly then Force(s.sessions, row.session, PartialRebaseline)
                      else if v.reset then Force(s.sessions, row.session, PartialReset)
                      else s.sessions;
      var before := if saved.Some? then saved.value.tokens else map[];
      Store(sessions,
            if LeavesEvent(v, row, env)
            then s.events[row.Id() := Event(row.session, row.At(), row.model, v.deltas)] else s.events,
            s.counters[row.session := Counter(row.At(), before + row.tokens)], s.conflicts, s.cutoffs)
  }

  function ImportSnapshot(s: Store, row: Row, env: Env): Store
    requires row.Snapshot?
  {
    if env.Cleared(row.At()) || row.Id() in s.events then s
    else
      var touched := MarkIf(Touch(s.sessions, row), Outside(row, env), row.session, PartialRetention);
      if row.lineageUnverified then s.(sessions := Mark(touched, row.session, PartialLineage))
      else Count(s.(sessions := touched), row, env)
  }

  // ---------- Messages ----------

  /** Two views of one message that cannot both be right. */
  predicate Disagree(model: string, tokens: Tokens, otherModel: string, other: Tokens) {
    model != otherModel || exists f :: f in tokens && f in other && tokens[f] != other[f]
  }

  predicate Contradicts(s: Store, row: Row)
    requires row.Message? && row.message.Some?
  {
    row.Id() in s.events && Disagree(row.model, row.tokens, s.events[row.Id()].model, s.events[row.Id()].tokens)
  }

  /** Missing columns are filled in; nothing else of a stored event changes. */
  function Merged(s: Store, row: Row): Event
    requires row.Message? && row.message.Some?
  {
    if row.Id() in s.events then s.events[row.Id()].(tokens := s.events[row.Id()].tokens + row.tokens)
    else Event(row.session, row.At(), row.model, row.tokens)
  }

  function ImportMessage(s: Store, row: Row, env: Env): Store
    requires row.Message?
  {
    if env.Cleared(row.At()) then s
    else if row.message.None? then
      var touched := MarkIf(Touch(s.sessions, row), Outside(row, env), row.session, PartialRetention);
      s.(sessions := Mark(touched, row.session, PartialIdentity))
    else if Outside(row, env) || row.Id() in s.conflicts then s
    else if Contradicts(s, row) then
      s.(sessions := Mark(Touch(s.sessions, row), row.session, PartialConflict),
         events := s.events - {row.Id()}, conflicts := s.conflicts + {row.Id()})
    else
      s.(sessions := MarkIf(Touch(s.sessions, row), row.usagePartial, row.session, PartialUsage),
         events := s.events[row.Id() := Merged(s, row)])
  }

  // ---------- Runs of records ----------

  datatype Item = Item(row: Row, env: Env)

  function Import(s: Store, item: Item): Store {
    if item.row.Snapshot? then ImportSnapshot(s, item.row, item.env) else ImportMessage(s, item.row, item.env)
  }

  function ImportAll(s: Store, items: seq<Item>): Store {
    if items == [] then s else Import(ImportAll(s, items[..|items| - 1]), items[|items| - 1])
  }

  lemma {:induction false} ImportAllSplit(s: Store, a: seq<Item>, b: seq<Item>)
    ensures ImportAll(s, a + b) == ImportAll(ImportAll(s, a), b)
  {
    if b == [] {
      assert a + b == a;
    } else {
      var items := a + b;
      assert items[..|items| - 1] == a + b[..|b| - 1];
      ImportAllSplit(s, a, b[..|b| - 1]);
    }
  }

  // ---------- Clearing and retention ----------

  /** Clearing removes everything and remembers when. */
  function Clear(s: Store, now: Time): Store {
    Store(map[], map[], map[], {}, s.cutoffs[Codex := now][ClaudeCode := now])
  }

  /** Sessions about to lose events are marked first. */
  function MarkTrimmed(s: Store, before: Time): map<SessionId, Session> {
    var trimmed := set id | id in s.events && s.events[id].at < before :: s.events[id].session;
    map k | k in s.sessions :: if k in trimmed then s.sessions[k].(coverage := PartialRetention) else s.sessions[k]
  }

  /** Deleting sessions deletes what refers to them. */
  function Cascade(s: Store): Store {
    s.(events := map id | id in s.events && s.events[id].session in s.sessions :: s.events[id],
       counters := map k | k in s.counters && k in s.sessions :: s.counters[k])
  }

  /** Retention drops old events, then whole sessions with all that belongs to them. */
  function Trim(s: Store, before: Time): Store {
    var marked := MarkTrimmed(s, before);
    Cascade(Store(map k | k in marked && marked[k].lastSeen >= before :: marked[k],
                  map id | id in s.events && s.events[id].at >= before :: s.events[id],
                  s.counters, s.conflicts, s.cutoffs))
  }
}

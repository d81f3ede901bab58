/** The session context of a Codex file, carried from record to record. */
module CodexContext {
  import opened Options
  import opened Jsonl

  /** What a line means for the context. Metadata without an id or a directory is ordinary. */
  datatype Meta =
    | TurnContext(model: string)
    | SessionMeta(info: SessionInfo, metaModel: string)
    | Ordinary

  datatype SessionInfo = SessionInfo(id: string, cwd: string, created: Option<int>, lineageUnverified: bool)

  datatype Context = Context(model: Option<string>, session: Option<SessionInfo>)

  type Decoder = Line -> Meta

  const EMPTY := Context(None, None)

  function After(c: Context, meta: Meta): Context {
    match meta
    case TurnContext(model) => c.(model := Some(model))
    case SessionMeta(info, model) => Context(Some(model), Some(info))
    case Ordinary => c
  }

  function Fold(decode: Decoder, c: Context, lines: seq<Line>): Context {
    if lines == [] then c else After(Fold(decode, c, lines[..|lines| - 1]), decode(lines[|lines| - 1]))
  }

  function RestLines(rest: Option<Line>): seq<Line> {
    if rest.Some? then [rest.value] else []
  }

  /** The context that reading `s` from its start yields. */
  function ContextOf(decode: Decoder, s: seq<Byte>): Context {
    Fold(decode, EMPTY, Kept(s))
  }

  lemma {:induction false} FoldSplit(decode: Decoder, c: Context, a: seq<Line>, b: seq<Line>)
    ensures Fold(decode, c, a + b) == Fold(decode, Fold(decode, c, a), b)
  {
    if b == [] {
      assert a + b == a;
    } else {
      assert (a + b)[..|a + b| - 1] == a + b[..|b| - 1];
      FoldSplit(decode, c, a, b[..|b| - 1]);
    }
  }

  lemma FoldOne(decode: Decoder, c: Context, line: Line)
    ensures Fold(decode, c, [line]) == After(c, decode(line))
  {
    assert [line][..0] == [];
  }

  // ---------- What lines say last ----------

  function ModelIn(meta: Meta): Option<string> {
    match meta case TurnContext(m) => Some(m) case SessionMeta(_, m) => Some(m) case Ordinary => None
  }

  function SessionIn(meta: Meta): Option<SessionInfo> {
    if meta.SessionMeta? then Some(meta.info) else None
  }

  /** `m` is the model that the last line with a model names. */
  ghost predicate LastModel(decode: Decoder, lines: seq<Line>, m: string) {
    exists i ::
      && 0 <= i < |lines| && ModelIn(decode(lines[i])) == Some(m)
      && forall j :: i < j < |lines| ==> ModelIn(decode(lines[j])).None?
  }

  ghost predicate LastSession(decode: Decoder, lines: seq<Line>, info: SessionInfo) {
    exists i ::
      && 0 <= i < |lines| && SessionIn(decode(lines[i])) == Some(info)
      && forall j :: i < j < |lines| ==> SessionIn(decode(lines[j])).None?
  }

  /** Lines set the model to what they name last, and leave it alone if they name none. */
  lemma {:induction false} FoldModel(decode: Decoder, c: Context, lines: seq<Line>)
    ensures forall m :: LastModel(decode, lines, m) ==> Fold(decode, c, lines).model == Some(m)
    ensures (forall m :: !LastModel(decode, lines, m)) ==> Fold(decode, c, lines).model == c.model
  {
    if lines != [] {
      var init, last := lines[..|lines| - 1], lines[|lines| - 1];
      assert lines == init + [last];
      FoldModel(decode, c, init);
      if ModelIn(decode(last)).Some? {
        assert LastModel(decode, lines, ModelIn(decode(last)).value);
      } else {
        forall m
          ensures LastModel(decode, lines, m) <==> LastModel(decode, init, m)
        {
          LastModelBefore(decode, init, last, m);
        }
      }
    }
  }

  lemma LastModelBefore(decode: Decoder, init: seq<Line>, last: Line, m: string)
    requires ModelIn(decode(last)).None?
    ensures LastModel(decode, init + [last], m) <==> LastModel(decode, init, m)
  {
    var lines := init + [last];
    if LastModel(decode, lines, m) {
      var i :| 0 <= i < |lines| && ModelIn(decode(lines[i])) == Some(m)
               && forall j :: i < j < |lines| ==> ModelIn(decode(lines[j])).None?;
      assert init[i] == lines[i];
      assert forall j :: i < j < |init| ==> init[j] == lines[j];
    }
    if LastModel(decode, init, m) {
      var i :| 0 <= i < |init| && ModelIn(decode(init[i])) == Some(m)
               && forall j :: i < j < |init| ==> ModelIn(decode(init[j])).None?;
      assert lines[i] == init[i];
      assert forall j :: i < j < |init| ==> init[j] == lines[j];
    }
  }

  lemma {:induction false} FoldSession(decode: Decoder, c: Context, lines: seq<Line>)
    ensures forall s :: LastSession(decode, lines, s) ==> Fold(decode, c, lines).session == Some(s)
    ensures (forall s :: !LastSession(decode, lines, s)) ==> Fold(decode, c, lines).session == c.session
  {
    if lines != [] {
      var init, last := lines[..|lines| - 1], lines[|lines| - 1];
      assert lines == init + [last];
      FoldSession(decode, c, init);
      if SessionIn(decode(last)).Some? {
        assert LastSession(decode, lines, SessionIn(decode(last)).value);
      } else {
        forall s
          ensures LastSession(decode, lines, s) <==> LastSession(decode, init, s)
        {
          LastSessionBefore(decode, init, last, s);
        }
      }
    }
  }

  lemma LastSessionBefore(decode: Decoder, init: seq<Line>, last: Line, s: SessionInfo)
    requires SessionIn(decode(last)).None?
    ensures LastSession(decode, init + [last], s) <==> LastSession(decode, init, s)
  {
    var lines := init + [last];
    if LastSession(decode, lines, s) {
      var i :| 0 <= i < |lines| && SessionIn(decode(lines[i])) == Some(s)
               && forall j :: i < j < |lines| ==> SessionIn(decode(lines[j])).None?;
      assert init[i] == lines[i];
      assert forall j :: i < j < |init| ==> init[j] == lines[j];
    }
    if LastSession(decode, init, s) {
      var i :| 0 <= i < |init| && SessionIn(decode(init[i])) == Some(s)
               && forall j :: i < j < |init| ==> SessionIn(decode(init[j])).None?;
      assert lines[i] == init[i];
      assert forall j :: i < j < |init| ==> init[j] == lines[j];
    }
  }

  /** From nothing, the context is exactly what the lines say last. */
  lemma ContextIsLast(decode: Decoder, lines: seq<Line>)
    ensures forall m :: Fold(decode, EMPTY, lines).model == Some(m) <==> LastModel(decode, lines, m)
    ensures forall s :: Fold(decode, EMPTY, lines).session == Some(s) <==> LastSession(decode, lines, s)
  {
    FoldModel(decode, EMPTY, lines);
    FoldSession(decode, EMPTY, lines);
  }

  /** The later lines last name a model or a session that the earlier ones do not last name. */
  ghost predicate SaysNew(decode: Decoder, earlier: seq<Line>, later: seq<Line>) {
    || (exists m :: LastModel(decode, later, m) && !LastModel(decode, earlier, m))
    || (exists s :: LastSession(decode, later, s) && !LastSession(decode, earlier, s))
  }

  /** Applying more lines changes the context if and only if they say something new. */
  lemma LaterLinesMatter(decode: Decoder, earlier: seq<Line>, later: seq<Line>)
    ensures Fold(decode, Fold(decode, EMPTY, earlier), later) != Fold(decode, EMPTY, earlier)
            <==> SaysNew(decode, earlier, later)
  {
    ContextIsLast(decode, earlier);
    FoldModel(decode, Fold(decode, EMPTY, earlier), later);
    FoldSession(decode, Fold(decode, EMPTY, earlier), later);
  }

  /** Two runs of lines leave the same context if and only if they last name the same. */
  ghost predicate LastNameSame(decode: Decoder, a: seq<Line>, b: seq<Line>) {
    && (forall m :: LastModel(decode, a, m) <==> LastModel(decode, b, m))
    && (forall s :: LastSession(decode, a, s) <==> LastSession(decode, b, s))
  }

  lemma SameContextIff(decode: Decoder, a: seq<Line>, b: seq<Line>)
    ensures Fold(decode, EMPTY, a) == Fold(decode, EMPTY, b) <==> LastNameSame(decode, a, b)
  {
    ContextIsLast(decode, a);
    ContextIsLast(decode, b);
    var x, y := Fold(decode, EMPTY, a), Fold(decode, EMPTY, b);
    if LastNameSame(decode, a, b) {
      assert x.model.Some? ==> y.model == x.model;
      assert y.model.Some? ==> y.model == x.model;
      assert x.session.Some? ==> y.session == x.session;
      assert y.session.Some? ==> y.session == x.session;
    }
  }

  // ---------- Reading a line again ----------

  /** Each of the lines means nothing, or the same as `meta`. */
  ghost predicate Repeats(decode: Decoder, lines: seq<Line>, meta: Meta) {
    forall l :: l in lines ==> decode(l).Ordinary? || decode(l) == meta
  }

  lemma {:induction false} RepeatsHeal(decode: Decoder, c: Context, lines: seq<Line>, meta: Meta)
    requires Repeats(decode, lines, meta)
    ensures After(Fold(decode, c, lines), meta) == After(c, meta)
    ensures meta.Ordinary? ==> Fold(decode, c, lines) == c
  {
    if lines != [] {
      assert lines[|lines| - 1] in lines;
      RepeatsHeal(decode, c, lines[..|lines| - 1], meta);
    }
  }

  /** When the first of the records repeats what was applied before it, everything after it
      is read in the right context. */
  lemma {:induction false} FirstRecordHeals(decode: Decoder, c: Context, lines: seq<Line>, records: seq<Line>)
    requires records != [] && Repeats(decode, lines, decode(records[0]))
    ensures Fold(decode, Fold(decode, c, lines), records) == Fold(decode, c, records)
  {
    var init := records[..|records| - 1];
    if init == [] {
      RepeatsHeal(decode, c, lines, decode(records[0]));
    } else {
      FirstRecordHeals(decode, c, lines, init);
    }
  }
}

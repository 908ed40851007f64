/**
Which statements `ExecuteQuery` runs eagerly, said on tokens: the classifier refinement put together with
the runs over the lazy server.
*/
module ExecutionOnTokens {
  import Inner
  import opened StatementSpec
  import SqlScanner
  import opened SqlLexer
  import opened SqlRefinement
  import opened Execution

  /** A text that the classifier reads as the tokenizer does. */
  predicate Readable(text: string) {
    && Lex(text).Some?
    && Orderly(Lex(text).value) && PlainSpelling(Lex(text).value)
    && FirstToken(Lex(text).value).Some?
  }

  /** Its first token is a DDL/DML keyword. */
  predicate KeywordText(text: string) {
    Readable(text) && StartsWithKeyword(Lex(text).value)
  }

  /** And it has a RETURNING token, or its keyword is closed off by white space, `(` or `;`. */
  predicate EagerText(text: string) {
    KeywordText(text) && (MentionsReturning(Lex(text).value) || FirstTokenDelimited(Lex(text).value))
  }

  /** The route of every statement with such a text and no ingest pending. */
  lemma RouteOnTokens(w: Wrapper)
    requires w.query != "" && w.ingest.target == "" && Readable(w.query)
    ensures var ps := Lex(w.query).value;
            RouteOf(w) ==
            if MentionsReturning(ps) then Drained
            else if StartsWithKeyword(ps) && FirstTokenDelimited(ps) then Put
            else Lazy
  {
    ClassifierOnTokens(w.query);
    ReturningMeansReturningToken(w.query);
    hide SqlScanner.IsDdlDml, SqlScanner.HasReturningClause, SqlScanner.StripSqlComments, Lex, Orderly, PlainSpelling;
  }

  /** So a keyword statement is done before the call returns exactly under that condition. */
  lemma KeywordStatementIsEagerExactly(w: Wrapper)
    requires w.query != "" && w.ingest.target == "" && KeywordText(w.query)
    ensures RoutedEagerly(w) <==> EagerText(w.query)
    ensures !RoutedEagerly(w) ==> RouteOf(w) == Lazy
  {
    RouteOnTokens(w);
    hide RouteOf, Readable;
  }

  /** A successful ExecuteQuery of a keyword statement has done its work, once per bound row, when it
      returns, or has done nothing at all, by the same condition. */
  lemma KeywordQueryRunsAtOnceExactly(s: Session, sid: nat, fault: Fault)
    requires Inv(s) && Enabled(s, Query(sid, fault))
    requires var w := s.stmts[sid].w; w.query != "" && w.ingest.target == "" && KeywordText(w.query)
    requires Next(s, Query(sid, fault)).srv.execs[|s.srv.execs|].ok
    ensures var st := s.stmts[sid]; var call := |s.srv.execs|;
            EffectsOf(Next(s, Query(sid, fault)).srv.log, call) ==
            if EagerText(st.w.query)
            then Repeat(Effect(call, Inner.SqlWork(st.w.query)), if st.bound.Some? then st.bound.value.count else 1)
            else []
  {
    var st := s.stmts[sid];
    KeywordStatementIsEagerExactly(st.w);
    NextKeepsInv(s, Query(sid, fault));
    hide RouteOf, KeywordText, EagerText;
    var t := Next(s, Query(sid, fault));
    assert LoggedOnce(t.srv, |s.srv.execs|);
    if RoutedEagerly(st.w) {
      EagerWorkIsAsked(st);
    }
    hide Inv, EffectsOf, Repeat, BoundInv;
  }

  // ----- Over whole runs -----

  /** What one action promises: the text of an eager keyword statement that ExecuteQuery ran successfully,
      once per bound row. */
  function PromisedOnTokens(s: Session, a: Action): seq<Effect>
    requires Enabled(s, a)
  {
    if a.Query? && Next(s, a).srv.execs[|s.srv.execs|].ok then
      var st := s.stmts[a.sid];
      if st.w.query != "" && st.w.ingest.target == "" && EagerText(st.w.query) then
        Repeat(Effect(|s.srv.execs|, Inner.SqlWork(st.w.query)), if st.bound.Some? then st.bound.value.count else 1)
      else []
    else []
  }

  function AllPromisedOnTokens(states: seq<Session>, actions: seq<Action>, n: nat): seq<Effect>
    requires IsRun(states, actions) && n <= |actions|
  {
    if n == 0 then []
    else AllPromisedOnTokens(states, actions, n - 1) + PromisedOnTokens(states[n - 1], actions[n - 1])
  }

  predicate EagerEffect(e: Effect) {
    e.work.SqlWork? && EagerText(e.work.text)
  }

  /** The effects of eager keyword statements. */
  function OnlyEagerTexts(log: seq<Effect>): seq<Effect> {
    if log == [] then []
    else OnlyEagerTexts(log[..|log| - 1]) + if EagerEffect(log[|log| - 1]) then [log[|log| - 1]] else []
  }

  lemma {:induction false} OnlyEagerTextsConcat(a: seq<Effect>, b: seq<Effect>)
    ensures OnlyEagerTexts(a + b) == OnlyEagerTexts(a) + OnlyEagerTexts(b)
  {
    hide EagerEffect;
    if b == [] {
      assert a + b == a;
    } else {
      OnlyEagerTextsConcat(a, b[..|b| - 1]);
      assert (a + b)[..|a + b| - 1] == a + b[..|b| - 1];
    }
  }

  lemma {:induction false} OnlyEagerTextsOfRepeat(e: Effect, n: nat)
    ensures OnlyEagerTexts(Repeat(e, n)) == if EagerEffect(e) then Repeat(e, n) else []
  {
    hide EagerEffect;
    if n == 0 {
    } else {
      OnlyEagerTextsOfRepeat(e, n - 1);
      RepeatLast(e, n);
      hide Repeat;
    }
  }

  lemma PromiseOnTokens(s: Session, a: Action)
    requires Enabled(s, a)
    ensures OnlyEagerTexts(Promised(s, a)) == PromisedOnTokens(s, a)
  {
    if a.Query? {
      var st := s.stmts[a.sid];
      var n := if st.bound.Some? then st.bound.value.count else 1;
      OnlyEagerTextsOfRepeat(Effect(|s.srv.execs|, Inner.SqlWork(st.w.query)), n);
      EagerTextsAreRouted(st.w);
    }
    hide Next, RoutedEagerly, EagerText, Repeat, OnlyEagerTexts;
  }

  lemma EagerTextsAreRouted(w: Wrapper)
    ensures RoutedEagerly(w) ==> w.query != "" && w.ingest.target == ""
    ensures w.query != "" && w.ingest.target == "" && EagerText(w.query) ==> RoutedEagerly(w)
  {
    if w.query != "" && w.ingest.target == "" && EagerText(w.query) {
      KeywordStatementIsEagerExactly(w);
    }
    hide EagerText;
  }

  lemma {:induction false} PromisesOnTokens(states: seq<Session>, actions: seq<Action>, n: nat)
    requires IsRun(states, actions) && n <= |actions|
    ensures OnlyEagerTexts(AllPromised(states, actions, n)) == AllPromisedOnTokens(states, actions, n)
  {
    hide Next, OnlyEagerTexts, Promised, PromisedOnTokens;
    if n == 0 {
      assert OnlyEagerTexts([]) == [] by {
        NothingIsEager();
      }
    } else {
      PromisesOnTokens(states, actions, n - 1);
      PromiseOnTokens(states[n - 1], actions[n - 1]);
      OnlyEagerTextsConcat(AllPromised(states, actions, n - 1), Promised(states[n - 1], actions[n - 1]));
    }
  }

  lemma NothingIsEager()
    ensures OnlyEagerTexts([]) == []
  {
  }

  /**
  In every run of one client thread, with any failures, the work of the statements whose first token is a
  keyword, and that have a RETURNING token or a keyword closed off, is in the log exactly once (once per
  bound row) for each successful ExecuteQuery, in call order, whatever became of the readers.
  */
  lemma KeywordEffectsExactlyOnce(states: seq<Session>, actions: seq<Action>, n: nat)
    requires IsRun(states, actions) && n <= |actions|
    ensures OnlyEagerTexts(Writes(states[n].srv.log, states[n].srv.execs)) == AllPromisedOnTokens(states, actions, n)
  {
    hide IsRun, OnlyEagerTexts, AllPromised, AllPromisedOnTokens, Writes;
    EagerEffectsExactlyOnce(states, actions, n);
    PromisesOnTokens(states, actions, n);
  }
}

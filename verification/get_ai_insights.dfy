/** `getAIInsights`: the insights shown on the dashboard. The signed-in user,
    the store, the clock and the model are parameters: `user` is the user's
    id or `None` when nobody is signed in, `table` the stored rows or `None`
    when reading them fails, `now` the time of the query and `clock(i)` the
    time at which insight `i` is formatted. */
module GetAIInsights {
  import opened Wrappers
  import opened Collections
  import opened RecordStore
  import Ai

  /** The insight returned when anything on the way fails. */
  const ErrorInsight: Ai.AIInsight :=
    Ai.AIInsight("error-1", "warning", "Conclusiones de IA Temporariamente no disponibles",
                 "Estamos teniendo problemas para analizar tus gastos en este momento. Por favor, intenta nuevamente en unos minutos.",
                 Some("Reintentar análisis"), 0.5)

  /** The two insights shown to a user with no recent records. */
  const WelcomeInsights: seq<Ai.AIInsight> := [
    Ai.AIInsight("welcome-1", "info", "Bienvenido a ExpenseTracker AI!",
                 "Comienza a agregar tus gastos para obtener conclusiones personalizadas de IA sobre tus patrones de gastos.",
                 Some("Añade tu primer gasto"), 1.0),
    Ai.AIInsight("welcome-2", "tip", "Controla regularmente",
                 "Para obtener los mejores resultados, intenta registrar tus gastos diariamente. Esto ayuda a nuestra IA a proporcionar conclusiones más precisas.",
                 Some("Establecer recordatorios diarios"), 1.0)
  ]

  /** `getAIInsights`: the error insight when there is no user, the store
      cannot be read or a record cannot be projected; the welcome insights
      when the window is empty; otherwise the model's insights about the
      projected window. */
  function GetAIInsights(user: Option<string>, table: Option<seq<StoredRecord>>, now: int,
                         ask: seq<Ai.ExpenseSummary> -> Option<string>, parse: string -> Option<Ai.JsonValue>,
                         clock: nat -> int): (r: seq<Ai.AIInsight>)
    ensures forall i :: 0 <= i < |r| ==> Ai.Complete(r[i])
    ensures user.None? || table.None? ==> r == [ErrorInsight]
    ensures user.Some? && table.Some? && Window(table.value, user.value, now) == [] ==> r == WelcomeInsights
  {
    if user.None? || table.None? then [ErrorInsight]
    else
      var window := Window(table.value, user.value, now);
      if |window| == 0 then WelcomeInsights
      else
        var expenses := Project(window);
        if expenses.None? then [ErrorInsight]
        else Ai.GenerateExpenseInsights(expenses.value, ask, parse, clock)
  }

  /** A user with no records in the window gets the two welcome insights
      without the model being asked: the result is the same whatever the
      model replies, the parser yields or the clock shows while formatting. */
  lemma WelcomeWithoutModel(user: string, table: seq<StoredRecord>, now: int,
                            ask1: seq<Ai.ExpenseSummary> -> Option<string>, parse1: string -> Option<Ai.JsonValue>, clock1: nat -> int,
                            ask2: seq<Ai.ExpenseSummary> -> Option<string>, parse2: string -> Option<Ai.JsonValue>, clock2: nat -> int)
    requires Window(table, user, now) == []
    ensures GetAIInsights(Some(user), Some(table), now, ask1, parse1, clock1)
         == GetAIInsights(Some(user), Some(table), now, ask2, parse2, clock2)
         == WelcomeInsights
    ensures |WelcomeInsights| == 2
    ensures WelcomeInsights[0].kind == "info" && WelcomeInsights[1].kind == "tip"
    ensures WelcomeInsights[0].confidence == WelcomeInsights[1].confidence == 1.0
  {
  }

  /** With records in the window, the model's insights about them are
      returned unchanged (an empty list when the model replies with an empty
      array, by `Ai.EmptyArrayNoInsights`). */
  lemma InsightsOfWindow(user: string, table: seq<StoredRecord>, now: int,
                         ask: seq<Ai.ExpenseSummary> -> Option<string>, parse: string -> Option<Ai.JsonValue>, clock: nat -> int)
    requires Window(table, user, now) != []
    requires Project(Window(table, user, now)).Some?
    ensures GetAIInsights(Some(user), Some(table), now, ask, parse, clock)
         == Ai.GenerateExpenseInsights(Project(Window(table, user, now)).value, ask, parse, clock)
  {
  }

  /** A record whose creation time has no ISO form makes the projection
      throw, and the error insight is returned. */
  lemma UnprojectableWindow(user: string, table: seq<StoredRecord>, now: int,
                            ask: seq<Ai.ExpenseSummary> -> Option<string>, parse: string -> Option<Ai.JsonValue>, clock: nat -> int)
    requires Window(table, user, now) != []
    requires Project(Window(table, user, now)).None?
    ensures GetAIInsights(Some(user), Some(table), now, ask, parse, clock) == [ErrorInsight]
  {
  }

  /** The error insight is returned exactly when something on the way fails:
      no user, an unreadable store, or a window record without an ISO date.
      The model's own failures give its fallback instead, never this one. */
  lemma ErrorIffFailure(user: Option<string>, table: Option<seq<StoredRecord>>, now: int,
                        ask: seq<Ai.ExpenseSummary> -> Option<string>, parse: string -> Option<Ai.JsonValue>, clock: nat -> int)
    ensures GetAIInsights(user, table, now, ask, parse, clock) == [ErrorInsight]
        <==> user.None? || table.None?
             || (Window(table.value, user.value, now) != [] && Project(Window(table.value, user.value, now)).None?)
  {
    if user.Some? && table.Some? {
      var window := Window(table.value, user.value, now);
      if window != [] && Project(window).Some? {
        var r := Ai.GenerateExpenseInsights(Project(window).value, ask, parse, clock);
        NotTheErrorInsight(r, clock);
      }
    }
  }

  lemma NotTheErrorInsight(r: seq<Ai.AIInsight>, clock: nat -> int)
    requires r == Ai.InsightsFallback || forall i :: 0 <= i < |r| ==> r[i].id == Ai.InsightId(clock(i), i)
    ensures r != [ErrorInsight]
  {
    if r != Ai.InsightsFallback && |r| == 1 {
      assert r[0].id == Ai.InsightId(clock(0), 0);
      assert r[0].id[0] == 'a' != ErrorInsight.id[0];
    }
  }

  /** No two insights returned by one call share an id. */
  lemma {:induction false} InsightIdsUnique(user: Option<string>, table: Option<seq<StoredRecord>>, now: int,
                                            ask: seq<Ai.ExpenseSummary> -> Option<string>,
                                            parse: string -> Option<Ai.JsonValue>, clock: nat -> int)
    ensures var r := GetAIInsights(user, table, now, ask, parse, clock);
      forall i, j :: 0 <= i < j < |r| ==> r[i].id != r[j].id
  {
    var r := GetAIInsights(user, table, now, ask, parse, clock);
    if user.Some? && table.Some? && Window(table.value, user.value, now) != []
       && Project(Window(table.value, user.value, now)).Some? {
      Ai.GeneratedIdsDistinct(Project(Window(table.value, user.value, now)).value, ask, parse, clock);
    } else if user.Some? && table.Some? && Window(table.value, user.value, now) == [] {
      assert r == WelcomeInsights;
      assert r[0].id[8] != r[1].id[8];
    }
  }

  /** A stored row the query does not select (another user's, or one
      created more than thirty days before `now`) does not change the
      insights. */
  lemma UnselectedRowIgnored(user: string, a: seq<StoredRecord>, x: StoredRecord, b: seq<StoredRecord>, now: int,
                             ask: seq<Ai.ExpenseSummary> -> Option<string>, parse: string -> Option<Ai.JsonValue>, clock: nat -> int)
    requires x.userId != user || x.createdAt < Cutoff(now)
    ensures GetAIInsights(Some(user), Some(a + [x] + b), now, ask, parse, clock)
         == GetAIInsights(Some(user), Some(a + b), now, ask, parse, clock)
  {
    WindowIgnoresUnselected(a, x, b, user, now);
  }
}

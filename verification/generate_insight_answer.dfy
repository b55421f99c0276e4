/** `generateInsightAnswer`: the model's answer to a question about the
    signed-in user's recent spending. As in `GetAIInsights`, `user` is the
    user's id or `None`, `table` the stored rows or `None` when reading them
    fails, `now` the time of the query and `ask` the model. */
module GenerateInsightAnswer {
  import opened Wrappers
  import opened Text
  import opened RecordStore
  import Ai

  /** `generateInsightAnswer`: the apology when there is no user, the store
      cannot be read or a record cannot be projected; otherwise the model's
      answer about the projected window, even when that window is empty. */
  function GenerateInsightAnswer(question: string, user: Option<string>, table: Option<seq<StoredRecord>>, now: int,
                                 ask: (string, seq<Ai.ExpenseSummary>) -> Option<string>): (answer: string)
    ensures user.None? || table.None? ==> answer == Ai.AnswerApology
  {
    if user.None? || table.None? then Ai.AnswerApology
    else
      var expenses := Project(Window(table.value, user.value, now));
      if expenses.None? then Ai.AnswerApology
      else Ai.GenerateAIAnswer(question, expenses.value, ask)
  }

  /** Every answer other than the apology is trimmed. */
  lemma AnswerTrimmed(question: string, user: Option<string>, table: Option<seq<StoredRecord>>, now: int,
                      ask: (string, seq<Ai.ExpenseSummary>) -> Option<string>)
    ensures var answer := GenerateInsightAnswer(question, user, table, now, ask);
      answer == Ai.AnswerApology || Trim(answer) == answer
  {
    if user.Some? && table.Some? {
      var expenses := Project(Window(table.value, user.value, now));
      if expenses.Some? {
        TrimmedAnswer(question, expenses.value, ask);
      }
    }
  }

  lemma TrimmedAnswer(question: string, context: seq<Ai.ExpenseRecord>, ask: (string, seq<Ai.ExpenseSummary>) -> Option<string>)
    ensures var answer := Ai.GenerateAIAnswer(question, context, ask);
      answer == Ai.AnswerApology || Trim(answer) == answer
  {
    var reply := ask(question, Ai.Summarise(context));
    if reply.Some? && reply.value != "" {
      Ai.AnswerShape(question, context, ask);
    }
  }

  /** There is no shortcut for an empty window: the model is still asked,
      with no records, and its trimmed reply (or the apology when it gives
      none) is the answer. */
  lemma EmptyWindowStillAsks(question: string, user: string, table: seq<StoredRecord>, now: int,
                             ask: (string, seq<Ai.ExpenseSummary>) -> Option<string>)
    requires Window(table, user, now) == []
    ensures var reply := ask(question, []);
      GenerateInsightAnswer(question, Some(user), Some(table), now, ask)
        == if reply.None? || reply.value == "" then Ai.AnswerApology else Trim(reply.value)
  {
    assert Project([]) == Some([]);
    assert Ai.Summarise([]) == [];
  }

  /** With every record of the window projected, the answer is the model
      helper's answer about them. */
  lemma AnswerOfWindow(question: string, user: string, table: seq<StoredRecord>, now: int,
                       ask: (string, seq<Ai.ExpenseSummary>) -> Option<string>)
    requires Project(Window(table, user, now)).Some?
    ensures GenerateInsightAnswer(question, Some(user), Some(table), now, ask)
         == Ai.GenerateAIAnswer(question, Project(Window(table, user, now)).value, ask)
  {
  }

  /** A record of the window whose creation time has no ISO form makes the
      projection throw, and the apology is returned without asking the model. */
  lemma UnprojectableWindow(question: string, user: string, table: seq<StoredRecord>, now: int,
                            ask1: (string, seq<Ai.ExpenseSummary>) -> Option<string>,
                            ask2: (string, seq<Ai.ExpenseSummary>) -> Option<string>)
    requires Project(Window(table, user, now)).None?
    ensures GenerateInsightAnswer(question, Some(user), Some(table), now, ask1)
         == GenerateInsightAnswer(question, Some(user), Some(table), now, ask2)
         == Ai.AnswerApology
  {
  }

  /** A stored row the query does not select (another user's, or one
      created more than thirty days before `now`) does not change the answer. */
  lemma UnselectedRowIgnored(question: string, user: string, a: seq<StoredRecord>, x: StoredRecord,
                             b: seq<StoredRecord>, now: int, ask: (string, seq<Ai.ExpenseSummary>) -> Option<string>)
    requires x.userId != user || x.createdAt < Cutoff(now)
    ensures GenerateInsightAnswer(question, Some(user), Some(a + [x] + b), now, ask)
         == GenerateInsightAnswer(question, Some(user), Some(a + b), now, ask)
  {
    WindowIgnoresUnselected(a, x, b, user, now);
  }
}

/** The model-facing helpers of the expense tracker: the summary of expenses
    sent to the model, the clean-up of its reply, the defaulting of parsed
    insights, the category allow-list and the fixed fallbacks. The model call
    itself is a function parameter: it receives what the prompt embeds and
    yields the reply's text, `None` for a missing reply or a failed call. */
module Ai {
  import opened Wrappers
  import opened Text
  import opened Collections

  /** A record as the helpers receive it; `amount` is in cents. */
  datatype ExpenseRecord = ExpenseRecord(id: string, amount: int, category: string, description: string, date: string)

  /** What the prompt embeds of one record. */
  datatype ExpenseSummary = ExpenseSummary(amount: int, category: string, description: string, date: string)

  /** An insight as the application shows it. `kind` is the `type` field. */
  datatype AIInsight = AIInsight(id: string, kind: string, title: string, message: string,
                                 action: Option<string>, confidence: real)

  /** One element of the parsed reply, each field `None` when it is absent,
      `null` or not a value of the field's type. */
  datatype RawInsight = RawInsight(kind: Option<string>, title: Option<string>, message: Option<string>,
                                   action: Option<string>, confidence: Option<real>)

  /** An element of a parsed JSON array: `null`, or any other value, read as a
      possibly partial insight (a number or a string has none of the fields). */
  datatype JsonElement = NullElement | ValueElement(raw: RawInsight)

  /** The value `JSON.parse` yields: an array, or anything else. */
  datatype JsonValue = JsonArray(elements: seq<JsonElement>) | JsonNonArray

  // ---------------------------------------------------------------------------
  // Summary projection
  // ---------------------------------------------------------------------------

  function ToSummary(e: ExpenseRecord): ExpenseSummary {
    ExpenseSummary(e.amount, e.category, e.description, e.date)
  }

  /** `expenses.map(...)`: amount, category, description and date of each
      record, in input order. */
  function Summarise(expenses: seq<ExpenseRecord>): (r: seq<ExpenseSummary>)
    ensures |r| == |expenses|
    ensures forall i :: 0 <= i < |r| ==>
      && r[i].amount == expenses[i].amount && r[i].category == expenses[i].category
      && r[i].description == expenses[i].description && r[i].date == expenses[i].date
  {
    MapSeq(expenses, ToSummary)
  }

  /** Two lists of records that differ only in their ids. */
  ghost predicate SameButIds(a: seq<ExpenseRecord>, b: seq<ExpenseRecord>) {
    |a| == |b| && forall i :: 0 <= i < |a| ==> a[i].(id := "") == b[i].(id := "")
  }

  /** The summary drops the id: it is the same for records that differ only there. */
  lemma {:induction false} SummaryIgnoresIds(a: seq<ExpenseRecord>, b: seq<ExpenseRecord>)
    requires SameButIds(a, b)
    ensures Summarise(a) == Summarise(b)
  {
    forall i | 0 <= i < |a| ensures Summarise(a)[i] == Summarise(b)[i] {
      assert a[i].(id := "") == b[i].(id := "");
      assert a[i].amount == a[i].(id := "").amount;
      assert b[i].amount == b[i].(id := "").amount;
    }
  }

  // ---------------------------------------------------------------------------
  // Code-fence stripping
  // ---------------------------------------------------------------------------

  const Fence: string := "```"
  const JsonFence: string := "```json"

  /** `.replace(/\s*```$/, "")`: a closing fence at the very end goes, with all
      the whitespace before it. */
  function DropClosingFence(x: string): string {
    if EndsWith(x, Fence) then TrimEnd(x[..|x| - 3]) else x
  }

  /** The reply with surrounding whitespace trimmed and, when it opens with a
      Markdown code fence (` ```json ` tried first, then ` ``` `), without that
      fence, the whitespace after it and a closing fence at the end. */
  function StripFences(reply: string): string {
    var t := Trim(reply);
    if StartsWith(t, JsonFence) then DropClosingFence(TrimStart(t[7..]))
    else if StartsWith(t, Fence) then DropClosingFence(TrimStart(t[3..]))
    else t
  }

  /** A reply that does not open with a fence is only trimmed. */
  lemma UnfencedReply(reply: string)
    requires !StartsWith(Trim(reply), Fence)
    ensures StripFences(reply) == Trim(reply)
  {
    JsonFenceOpensFence(Trim(reply));
  }

  lemma JsonFenceOpensFence(x: string)
    ensures StartsWith(x, JsonFence) ==> StartsWith(x, Fence)
  {
    if StartsWith(x, JsonFence) {
      assert x[..3] == x[..7][..3];
    }
  }

  lemma JsonAfterFence(rest: string)
    ensures StartsWith(Fence + rest, JsonFence) ==> StartsWith(rest, "json")
  {
    if StartsWith(Fence + rest, JsonFence) {
      assert rest[..4] == (Fence + rest)[3..7];
    }
  }

  /** Whatever the reply, the cleaned text neither starts nor ends with whitespace. */
  lemma StripFencesUnpadded(reply: string)
    ensures Unpadded(StripFences(reply))
  {
    var t := Trim(reply);
    if StartsWith(t, JsonFence) {
      StrippedUnpadded(t, 7);
    } else if StartsWith(t, Fence) {
      StrippedUnpadded(t, 3);
    }
  }

  lemma StrippedUnpadded(t: string, k: nat)
    requires Unpadded(t) && k <= |t|
    ensures Unpadded(DropClosingFence(TrimStart(t[k..])))
  {
    TrimStartOfSuffix(t, k);
    DropClosingFenceUnpadded(TrimStart(t[k..]));
  }

  lemma TrimStartOfSuffix(t: string, k: nat)
    requires Unpadded(t) && k <= |t|
    ensures Unpadded(TrimStart(t[k..]))
  {
    var v := TrimStart(t[k..]);
    if v != [] {
      assert v[|v| - 1] == t[|t| - 1];
    }
  }

  lemma DropClosingFenceUnpadded(v: string)
    requires Unpadded(v)
    ensures Unpadded(DropClosingFence(v))
  {
    if EndsWith(v, Fence) {
      var w := TrimEnd(v[..|v| - 3]);
      if w != [] {
        assert w[0] == v[0];
      }
    }
  }

  /** Whitespace, an unpadded body, whitespace and a closing fence lose all but the body. */
  lemma {:induction false} FenceBody(w1: string, s: string, w2: string)
    requires AllSpace(w1) && AllSpace(w2) && Unpadded(s)
    ensures DropClosingFence(TrimStart(w1 + s + w2 + Fence)) == s
  {
    var u := s + w2 + Fence;
    assert w1 + s + w2 + Fence == w1 + u;
    TrimStartPrefix(w1, u);
    if s == [] {
      EmptyFenceBody(w2);
    } else {
      FullFenceBody(s, w2);
    }
  }

  lemma {:induction false} EmptyFenceBody(w2: string)
    requires AllSpace(w2)
    ensures DropClosingFence(TrimStart([] + w2 + Fence)) == []
  {
    assert [] + w2 + Fence == w2 + Fence;
    TrimStartPrefix(w2, Fence);
    TrimStartOfUnpadded(Fence);
    assert Fence[..|Fence| - 3] == [];
  }

  lemma {:induction false} FullFenceBody(s: string, w2: string)
    requires AllSpace(w2) && Unpadded(s) && s != []
    ensures DropClosingFence(TrimStart(s + w2 + Fence)) == s
  {
    var u := s + w2 + Fence;
    TrimStartOfUnpadded(u);
    assert EndsWith(u, Fence);
    assert u[..|u| - 3] == s + w2;
    TrimEndSuffix(s, w2);
    TrimEndOfUnpadded(s);
  }

  lemma FencedIsTrimmed(x: string)
    requires StartsWith(x, Fence) && EndsWith(x, Fence)
    ensures Trim(x) == x
  {
    TrimAroundSpaces([], x, []);
    assert [] + x + [] == x;
  }

  /** Round trip: a body wrapped in a ` ```json ` fence, with any whitespace
      inside the fence, comes back exactly. */
  lemma JsonFenceRoundTrip(w1: string, s: string, w2: string)
    requires AllSpace(w1) && AllSpace(w2) && Unpadded(s)
    ensures StripFences(JsonFence + w1 + s + w2 + Fence) == s
  {
    var rest := w1 + s + w2 + Fence;
    var x := JsonFence + rest;
    assert JsonFence + w1 + s + w2 + Fence == x;
    assert StartsWith(x, JsonFence) && x[7..] == rest;
    Enclosed(JsonFence, rest);
    FenceBody(w1, s, w2);
  }

  /** Text that opens and closes with a fence is already trimmed. */
  lemma Enclosed(opening: string, rest: string)
    requires StartsWith(opening, Fence) && EndsWith(rest, Fence)
    ensures Trim(opening + rest) == opening + rest
  {
    var x := opening + rest;
    assert x[..3] == opening[..3];
    assert x[|x| - 3..] == rest[|rest| - 3..];
    FencedIsTrimmed(x);
  }

  /** Round trip for a plain ` ``` ` fence whose text does not begin with `json`. */
  lemma PlainFenceRoundTrip(w1: string, s: string, w2: string)
    requires AllSpace(w1) && AllSpace(w2) && Unpadded(s)
    requires !StartsWith(w1 + s + w2 + Fence, "json")
    ensures StripFences(Fence + w1 + s + w2 + Fence) == s
  {
    var rest := w1 + s + w2 + Fence;
    var x := Fence + rest;
    assert Fence + w1 + s + w2 + Fence == x;
    assert StartsWith(x, Fence) && x[3..] == rest;
    JsonAfterFence(rest);
    Enclosed(Fence, rest);
    FenceBody(w1, s, w2);
  }

  // ---------------------------------------------------------------------------
  // Insight formatting
  // ---------------------------------------------------------------------------

  /** JavaScript truthiness of an optional string: present and non-empty. */
  predicate Truthy(x: Option<string>) {
    x.Some? && x.value != ""
  }

  /** `x || fallback` for an optional string. */
  function OrElse(x: Option<string>, fallback: string): (r: string)
    ensures Truthy(x) ==> r == x.value
    ensures !Truthy(x) ==> r == fallback
  {
    if Truthy(x) then x.value else fallback
  }

  /** `insight.confidence || 0.8`: absent and zero confidences become 0.8. */
  function ConfidenceOr(x: Option<real>): (r: real)
    ensures x.Some? && x.value != 0.0 ==> r == x.value
    ensures x.None? || x.value == 0.0 ==> r == 0.8
  {
    if x.Some? && x.value != 0.0 then x.value else 0.8
  }

  /** The id of the insight at `index` formatted when the clock shows `time`:
      `ai-<time>-<index>`. */
  function InsightId(time: int, index: nat): string {
    "ai-" + IntToString(time) + "-" + NatToString(index)
  }

  /** `a` is the raw element `raw` formatted as element `index` while the
      clock shows `time`: a truthy type, title, message or confidence is
      kept and a falsy one becomes `info`, `AI Insight`, `Análisis completo`
      or 0.8; the action is kept as it is. */
  predicate FormattedAs(raw: RawInsight, time: int, index: nat, a: AIInsight) {
    && a.id == InsightId(time, index) && a.action == raw.action
    && (Truthy(raw.kind) ==> a.kind == raw.kind.value)
    && (!Truthy(raw.kind) ==> a.kind == "info")
    && (Truthy(raw.title) ==> a.title == raw.title.value)
    && (!Truthy(raw.title) ==> a.title == "AI Insight")
    && (Truthy(raw.message) ==> a.message == raw.message.value)
    && (!Truthy(raw.message) ==> a.message == "Análisis completo")
    && (raw.confidence.Some? && raw.confidence.value != 0.0 ==> a.confidence == raw.confidence.value)
    && (raw.confidence.None? || raw.confidence.value == 0.0 ==> a.confidence == 0.8)
  }

  function FormatInsight(raw: RawInsight, time: int, index: nat): (a: AIInsight)
    ensures Complete(a) && FormattedAs(raw, time, index, a)
  {
    AIInsight(InsightId(time, index), OrElse(raw.kind, "info"), OrElse(raw.title, "AI Insight"),
              OrElse(raw.message, "Análisis completo"), raw.action, ConfidenceOr(raw.confidence))
  }

  /** An insight the application can show: kind, title and message are never
      empty and the confidence is never zero. */
  predicate Complete(a: AIInsight) {
    a.kind != "" && a.title != "" && a.message != "" && a.confidence != 0.0
  }

  /** `insights.map(...)`: one insight per raw element, in order, each with
      its own id and every falsy field replaced by its default. The callback
      reads the clock once per element: `clock(i)` is what `Date.now()` shows
      when element `i` is formatted. */
  function FormatInsights(raws: seq<RawInsight>, clock: nat -> int): (r: seq<AIInsight>)
    ensures |r| == |raws|
    ensures forall i :: 0 <= i < |r| ==> Complete(r[i]) && FormattedAs(raws[i], clock(i), i, r[i])
  {
    var r := seq(|raws|, i requires 0 <= i < |raws| => FormatInsight(raws[i], clock(i), i));
    assert forall i :: 0 <= i < |r| ==> r[i] == FormatInsight(raws[i], clock(i), i);
    r
  }

  /** Two ids are equal exactly when both the clock reading and the index
      are: the first `-` after the time's optional sign ends the time. So no
      two insights of one batch share an id, whatever the clock shows while
      the batch is formatted. */
  lemma InsightIdsDistinct(t1: int, t2: int, i: nat, j: nat)
    ensures InsightId(t1, i) == InsightId(t2, j) <==> t1 == t2 && i == j
  {
    if InsightId(t1, i) == InsightId(t2, j) {
      var a, b := IntToString(t1), IntToString(t2);
      var x, y := NatToString(i), NatToString(j);
      InsightIdSuffix(t1, i);
      InsightIdSuffix(t2, j);
      DashOnlyFirst(t1);
      DashOnlyFirst(t2);
      SplitAtDash(a, x, b, y);
      IntToStringInjective(t1, t2);
      assert i == DigitsValue(x, 10) == DigitsValue(y, 10) == j;
    }
  }

  /** After `ai-`, an id is the time, a `-` and the index. */
  lemma InsightIdSuffix(time: int, index: nat)
    ensures InsightId(time, index)[3..] == IntToString(time) + "-" + NatToString(index)
  {
    var rest := IntToString(time) + "-" + NatToString(index);
    assert InsightId(time, index) == "ai-" + rest;
  }

  /** `String(t)` holds a `-` at most at its first position. */
  lemma DashOnlyFirst(t: int)
    ensures forall k :: 1 <= k < |IntToString(t)| ==> IntToString(t)[k] != '-'
  {
    var r := IntToString(t);
    if t < 0 {
      forall k | 1 <= k < |r| ensures r[k] != '-' {
        assert r[k] == r[1..][k - 1];
      }
    }
  }

  /** A text `a-x` splits back into `a` and `x` when `a` is non-empty and has
      no `-` after its first character. */
  lemma SplitAtDash(a: string, x: string, b: string, y: string)
    requires a != [] && forall k :: 1 <= k < |a| ==> a[k] != '-'
    requires b != [] && forall k :: 1 <= k < |b| ==> b[k] != '-'
    requires a + "-" + x == b + "-" + y
    ensures a == b && x == y
  {
    var s := a + "-" + x;
    assert forall k :: 1 <= k < |a| ==> s[k] == a[k] != '-';
    assert forall k :: 1 <= k < |b| ==> s[k] == b[k] != '-';
    assert s[|a|] == '-' && s[|b|] == '-';
    assert |a| == |b|;
    assert a == s[..|a|] && b == s[..|b|];
    assert x == s[|a| + 1..] && y == s[|b| + 1..];
  }

  /** The single insight returned when the reply cannot be used. */
  const InsightsFallback: seq<AIInsight> := [
    AIInsight("fallback-1", "info", "Análisis de IA no disponible",
              "No se puede generar conclusiones personalizadas en este momento. Por favor, intenta nuevamente más tarde.",
              Some("Actualizar conclusiones"), 0.5)
  ]

  /** The raw insights of a parsed array, or `None` when an element is `null`
      (reading a field of `null` throws). */
  function RawInsights(elements: seq<JsonElement>): (r: Option<seq<RawInsight>>)
    ensures r.Some? <==> forall i :: 0 <= i < |elements| ==> elements[i].ValueElement?
    ensures r.Some? ==> |r.value| == |elements| && forall i :: 0 <= i < |elements| ==> r.value[i] == elements[i].raw
  {
    if exists i :: 0 <= i < |elements| && elements[i].NullElement? then None
    else Some(seq(|elements|, i requires 0 <= i < |elements| => elements[i].raw))
  }

  /** `generateExpenseInsights`: asks the model about the summary, strips the
      fences off its reply, parses it and formats each element; a missing or
      empty reply, a reply that does not parse, a parsed value that is not an
      array and an array with a `null` element all yield the fallback. */
  function GenerateExpenseInsights(expenses: seq<ExpenseRecord>, ask: seq<ExpenseSummary> -> Option<string>,
                                   parse: string -> Option<JsonValue>, clock: nat -> int): (r: seq<AIInsight>)
    ensures forall i :: 0 <= i < |r| ==> Complete(r[i])
    ensures r == InsightsFallback || forall i :: 0 <= i < |r| ==> r[i].id == InsightId(clock(i), i)
  {
    var reply := ask(Summarise(expenses));
    if reply.None? || reply.value == "" then InsightsFallback
    else
      var parsed := parse(StripFences(reply.value));
      if parsed.None? || parsed.value.JsonNonArray? then InsightsFallback
      else
        var raws := RawInsights(parsed.value.elements);
        if raws.None? then InsightsFallback else FormatInsights(raws.value, clock)
  }

  /** Every way the reply can fail gives exactly the fallback insight. */
  lemma InsightsFallbackCases(expenses: seq<ExpenseRecord>, ask: seq<ExpenseSummary> -> Option<string>,
                              parse: string -> Option<JsonValue>, clock: nat -> int)
    requires var reply := ask(Summarise(expenses));
      || reply.None? || reply.value == ""
      || parse(StripFences(reply.value)).None?
      || parse(StripFences(reply.value)) == Some(JsonNonArray)
    ensures GenerateExpenseInsights(expenses, ask, parse, clock) == InsightsFallback
    ensures |GenerateExpenseInsights(expenses, ask, parse, clock)| == 1
  {
  }

  /** A reply that parses to an array without `null` gives one formatted
      insight per element, in order. */
  lemma InsightsFromArray(expenses: seq<ExpenseRecord>, ask: seq<ExpenseSummary> -> Option<string>,
                          parse: string -> Option<JsonValue>, clock: nat -> int, raws: seq<RawInsight>)
    requires ask(Summarise(expenses)).Some? && ask(Summarise(expenses)).value != ""
    requires parse(StripFences(ask(Summarise(expenses)).value))
          == Some(JsonArray(seq(|raws|, i requires 0 <= i < |raws| => ValueElement(raws[i]))))
    ensures GenerateExpenseInsights(expenses, ask, parse, clock) == FormatInsights(raws, clock)
  {
    var elements := seq(|raws|, i requires 0 <= i < |raws| => ValueElement(raws[i]));
    RawInsightsOfValues(raws);
    FormatParsedArray(expenses, ask, parse, clock, elements, raws);
  }

  lemma RawInsightsOfValues(raws: seq<RawInsight>)
    ensures RawInsights(seq(|raws|, i requires 0 <= i < |raws| => ValueElement(raws[i]))) == Some(raws)
  {
    var elements := seq(|raws|, i requires 0 <= i < |raws| => ValueElement(raws[i]));
    assert forall i :: 0 <= i < |elements| ==> elements[i].ValueElement? && elements[i].raw == raws[i];
    assert RawInsights(elements).value == raws;
  }

  /** A usable reply that parses to an array of raw insights is formatted. */
  lemma FormatParsedArray(expenses: seq<ExpenseRecord>, ask: seq<ExpenseSummary> -> Option<string>,
                          parse: string -> Option<JsonValue>, clock: nat -> int,
                          elements: seq<JsonElement>, raws: seq<RawInsight>)
    requires ask(Summarise(expenses)).Some? && ask(Summarise(expenses)).value != ""
    requires parse(StripFences(ask(Summarise(expenses)).value)) == Some(JsonArray(elements))
    requires RawInsights(elements) == Some(raws)
    ensures GenerateExpenseInsights(expenses, ask, parse, clock) == FormatInsights(raws, clock)
  {
  }

  /** A reply that parses to the empty array gives no insights at all. */
  lemma EmptyArrayNoInsights(expenses: seq<ExpenseRecord>, ask: seq<ExpenseSummary> -> Option<string>,
                             parse: string -> Option<JsonValue>, clock: nat -> int)
    requires ask(Summarise(expenses)).Some? && ask(Summarise(expenses)).value != ""
    requires parse(StripFences(ask(Summarise(expenses)).value)) == Some(JsonArray([]))
    ensures GenerateExpenseInsights(expenses, ask, parse, clock) == []
  {
    var elements: seq<JsonElement>, raws: seq<RawInsight> := [], [];
    assert RawInsights(elements) == Some(raws);
    FormatParsedArray(expenses, ask, parse, clock, elements, raws);
  }

  /** No two insights of one result share an id, however the clock moves. */
  lemma GeneratedIdsDistinct(expenses: seq<ExpenseRecord>, ask: seq<ExpenseSummary> -> Option<string>,
                             parse: string -> Option<JsonValue>, clock: nat -> int)
    ensures var r := GenerateExpenseInsights(expenses, ask, parse, clock);
      forall i, j :: 0 <= i < j < |r| ==> r[i].id != r[j].id
  {
    var r := GenerateExpenseInsights(expenses, ask, parse, clock);
    if r != InsightsFallback {
      forall i, j | 0 <= i < j < |r| ensures r[i].id != r[j].id {
        InsightIdsDistinct(clock(i), clock(j), i, j);
      }
    }
  }

  /** The result depends on the records only through their summary, so not on their ids. */
  lemma InsightsIgnoreIds(a: seq<ExpenseRecord>, b: seq<ExpenseRecord>, ask: seq<ExpenseSummary> -> Option<string>,
                          parse: string -> Option<JsonValue>, clock: nat -> int)
    requires SameButIds(a, b)
    ensures GenerateExpenseInsights(a, ask, parse, clock) == GenerateExpenseInsights(b, ask, parse, clock)
  {
    SummaryIgnoresIds(a, b);
  }

  // ---------------------------------------------------------------------------
  // Category allow-list
  // ---------------------------------------------------------------------------

  const ValidCategories: seq<string> := ["Food", "Transportation", "Entertainment", "Shopping", "Bills", "Healthcare", "Other"]

  /** The labels the categorisation prompt asks the model to answer with. */
  const PromptCategories: seq<string> := ["Comida", "Transporte", "Entretenimiento", "Compra", "Facturas", "Salud", "Otra"]

  /** `categorizeExpense`: the trimmed reply when it is one of the seven
      allowed categories, otherwise (no reply, or any other text) `Other`. */
  function CategorizeExpense(description: string, ask: string -> Option<string>): (c: string)
    ensures c in ValidCategories
    ensures var reply := ask(description);
      c == (if reply.Some? && Trim(reply.value) in ValidCategories then Trim(reply.value) else "Other")
  {
    var reply := ask(description);
    var category := if reply.Some? then Trim(reply.value) else "";
    if category in ValidCategories then category else "Other"
  }

  /** The category is the trimmed reply exactly when that reply is allowed. */
  lemma CategoryIsReplyIff(description: string, ask: string -> Option<string>)
    requires ask(description).Some?
    ensures CategorizeExpense(description, ask) == Trim(ask(description).value)
        <==> Trim(ask(description).value) in ValidCategories
  {
  }

  /** Every label the prompt offers lies outside the allow-list, so a reply
      that follows the prompt is always filed as `Other`. */
  lemma PromptLabelsBecomeOther(description: string, ask: string -> Option<string>)
    requires ask(description).Some? && Trim(ask(description).value) in PromptCategories
    ensures CategorizeExpense(description, ask) == "Other"
  {
    PromptLabelsNotAllowed(Trim(ask(description).value));
  }

  lemma PromptLabelsNotAllowed(name: string)
    requires name in PromptCategories
    ensures name !in ValidCategories
  {
    assert name != [] && (name[0], |name|) in {('C', 6), ('T', 10), ('E', 15), ('F', 8), ('S', 5), ('O', 4)};
    forall v | v in ValidCategories ensures (v[0], |v|) in {('F', 4), ('T', 14), ('E', 13), ('S', 8), ('B', 5), ('H', 10), ('O', 5)} {
    }
  }

  // ---------------------------------------------------------------------------
  // Answers
  // ---------------------------------------------------------------------------

  const AnswerApology: string :=
    "No puedo proporcionar una respuesta detallada en este momento. Por favor, intenta actualizar las conclusiones o verifica tu conexión."

  /** `generateAIAnswer`: the trimmed reply, or the apology when there is no
      reply or it is empty. */
  function GenerateAIAnswer(question: string, context: seq<ExpenseRecord>,
                            ask: (string, seq<ExpenseSummary>) -> Option<string>): (answer: string)
    ensures var reply := ask(question, Summarise(context));
      && (reply.None? || reply.value == "" ==> answer == AnswerApology)
      && (reply.Some? && reply.value != "" ==> answer == Trim(reply.value))
  {
    var reply := ask(question, Summarise(context));
    if reply.None? || reply.value == "" then AnswerApology else Trim(reply.value)
  }

  /** An answer taken from the reply is trimmed; a reply of whitespace only is
      not empty, so it yields the empty answer rather than the apology. */
  lemma AnswerShape(question: string, context: seq<ExpenseRecord>, ask: (string, seq<ExpenseSummary>) -> Option<string>)
    requires ask(question, Summarise(context)).Some? && ask(question, Summarise(context)).value != ""
    ensures Trim(GenerateAIAnswer(question, context, ask)) == GenerateAIAnswer(question, context, ask)
    ensures AllSpace(ask(question, Summarise(context)).value) ==> GenerateAIAnswer(question, context, ask) == ""
  {
    var v := ask(question, Summarise(context)).value;
    TrimIdempotent(v);
    if AllSpace(v) {
      TrimStartAllSpace(v);
    }
  }
}

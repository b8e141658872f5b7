/** Computations inside the REST endpoints of the backend: how a request's token is found, how quiz
    rows are grouped into questions and graded, how course completion is bucketed, how passed
    lectures are grouped by day, which columns a profile update may set, and which status a failed
    request reaches the client with. Database reads are inputs (the rows a query returns, in its
    ORDER BY order); `decode_token` is an input (the claims it yields, or None when it raises). */
module ApiEndpoints {
  import opened Common

  // ---------------------------------------------------------------------------------------------
  // Token extraction

  const BearerPrefix: string := "Bearer "

  /** `s.split(' ')[0]`: the text before the first space (all of `s` when it has none). */
  function FirstField(s: string): (r: string)
    ensures StartsWith(s, r) && ' ' !in r
    ensures |r| == |s| || s[|r|] == ' '
  {
    var i := IndexOfSpace(s);
    s[..i]
  }

  function IndexOfSpace(s: string): (i: nat)
    ensures i <= |s| && (i == |s| || s[i] == ' ')
    ensures forall k :: 0 <= k < i ==> s[k] != ' '
  {
    if s == [] || s[0] == ' ' then 0 else 1 + IndexOfSpace(s[1..])
  }

  /** The token a request authenticates with: the `auth_token` cookie when it is non-empty, otherwise
      the second space-separated field of an `Authorization` header that starts with "Bearer "
      (case-sensitive). None stands for a 401 answer: "No authentication token provided" when neither
      source gives a field, and for an empty field, which `decode_token` rejects, the 401 the
      rejection is answered with. */
  function RequestToken(cookie: Option<string>, header: Option<string>): (r: Option<string>)
    ensures r.Some? ==> r.value != ""
    ensures cookie.Some? && cookie.value != "" ==> r == cookie
    ensures (cookie.None? || cookie.value == "") && (header.None? || !StartsWith(header.value, BearerPrefix)) ==>
              r.None?
    ensures (cookie.None? || cookie.value == "") && r.Some? ==>
              ' ' !in r.value && StartsWith(header.value, BearerPrefix + r.value)
              && (|header.value| == |BearerPrefix + r.value| || header.value[|BearerPrefix + r.value|] == ' ')
  {
    if cookie.Some? && cookie.value != "" then cookie
    else if header.Some? && StartsWith(header.value, BearerPrefix) then
      var t := FirstField(header.value[|BearerPrefix|..]);
      assert header.value == BearerPrefix + header.value[|BearerPrefix|..];
      if t == "" then None else Some(t)
    else None
  }

  /** A header `Bearer <t>` or `Bearer <t> <more>` yields `t` whenever `t` is non-empty and has no space. */
  lemma BearerRoundTrip(t: string, more: Option<string>)
    requires t != "" && ' ' !in t
    ensures var h := if more.Some? then BearerPrefix + t + " " + more.value else BearerPrefix + t;
            RequestToken(None, Some(h)) == Some(t) && RequestToken(Some(""), Some(h)) == Some(t)
  {
    if more.Some? {
      BearerWithRest(t, " " + more.value);
      assert BearerPrefix + t + " " + more.value == BearerPrefix + t + (" " + more.value);
    } else {
      BearerWithRest(t, "");
      assert BearerPrefix + t + "" == BearerPrefix + t;
    }
  }

  /** The header `Bearer <t>` followed by nothing or by a space and more. */
  lemma BearerWithRest(t: string, rest: string)
    requires t != "" && ' ' !in t && (rest == [] || rest[0] == ' ')
    ensures RequestToken(None, Some(BearerPrefix + t + rest)) == Some(t)
    ensures RequestToken(Some(""), Some(BearerPrefix + t + rest)) == Some(t)
  {
    var h := BearerPrefix + t + rest;
    assert h[..|BearerPrefix|] == BearerPrefix;
    assert h[|BearerPrefix|..] == t + rest;
    IndexOfSpaceConcat(t, rest);
    assert (t + rest)[..|t|] == t;
  }

  lemma {:induction false} IndexOfSpaceConcat(a: string, r: string)
    requires ' ' !in a && (r == [] || r[0] == ' ')
    ensures IndexOfSpace(a + r) == |a|
    decreases |a|
  {
    if a != [] {
      assert (a + r)[0] == a[0];
      assert (a + r)[1..] == a[1..] + r;
      IndexOfSpaceConcat(a[1..], r);
    } else {
      assert a + r == r;
    }
  }

  // ---------------------------------------------------------------------------------------------
  // Quiz rows: read back by `get_lecture_details`, written by `create_lecture`

  /** One row of the question/option join, as `get_lecture_details` reads it ordered by question id
      and option id. */
  datatype OptionRow = OptionRow(questionId: int, questionText: string, optionText: string, isCorrect: bool)

  /** A question of the returned quiz. */
  datatype QuizQuestion = QuizQuestion(id: int, question: string, options: seq<string>, correctAnswer: nat)

  /** A question started by its first row: that row's text and option, `correctAnswer` 0. */
  function Start(r: OptionRow): QuizQuestion {
    QuizQuestion(r.questionId, r.questionText, [r.optionText], 0)
  }

  /** A further row of the current question: its option is appended and, when it is correct,
      `correctAnswer` moves to it. */
  function Extend(q: QuizQuestion, r: OptionRow): (e: QuizQuestion)
    ensures e.id == q.id && e.question == q.question && e.options == q.options + [r.optionText]
  {
    q.(options := q.options + [r.optionText], correctAnswer := if r.isCorrect then |q.options| else q.correctAnswer)
  }

  /** One turn of the loop: a row whose question id differs from the current question's starts a new
      question, any other row extends the current one. */
  function AddRow(prev: seq<QuizQuestion>, r: OptionRow): (qs: seq<QuizQuestion>)
    ensures qs != [] && qs[|qs| - 1].id == r.questionId
  {
    if prev != [] && prev[|prev| - 1].id == r.questionId then prev[..|prev| - 1] + [Extend(prev[|prev| - 1], r)]
    else prev + [Start(r)]
  }

  /** The questions after the rows seen so far, in the order the loop emits them. */
  function Grouped(rows: seq<OptionRow>): (qs: seq<QuizQuestion>)
    ensures rows == [] <==> qs == []
    ensures qs != [] ==> qs[|qs| - 1].id == rows[|rows| - 1].questionId
  {
    if rows == [] then [] else AddRow(Grouped(rows[..|rows| - 1]), rows[|rows| - 1])
  }

  /** Every question has an option, and `correctAnswer` indexes one of them. */
  predicate WellFormed(qs: seq<QuizQuestion>) {
    forall k :: 0 <= k < |qs| ==> qs[k].options != [] && qs[k].correctAnswer < |qs[k].options|
  }

  lemma {:induction false} GroupedWellFormed(rows: seq<OptionRow>)
    ensures WellFormed(Grouped(rows))
  {
    if rows != [] {
      var prev := Grouped(rows[..|rows| - 1]);
      GroupedWellFormed(rows[..|rows| - 1]);
      var qs := AddRow(prev, rows[|rows| - 1]);
      forall k | 0 <= k < |qs| - 1
        ensures qs[k] == prev[k]
      {
      }
    }
  }

  /** The grouping loop of `get_lecture_details`. */
  method GroupQuizRows(rows: seq<OptionRow>) returns (qs: seq<QuizQuestion>)
    ensures qs == Grouped(rows)
    ensures WellFormed(qs) && AllOptions(qs) == Texts(rows)
  {
    qs := [];
    var current: Option<int> := None;
    var questionText := "";
    var options: seq<string> := [];
    var correct: nat := 0;
    for i := 0 to |rows|
      invariant current.None? <==> i == 0
      invariant current.None? ==> qs == []
      invariant current.Some? ==> Grouped(rows[..i]) == qs + [QuizQuestion(current.value, questionText, options, correct)]
    {
      var row := rows[i];
      assert rows[..i + 1][..i] == rows[..i];
      assert Grouped(rows[..i + 1]) == AddRow(Grouped(rows[..i]), row);
      ghost var cur := QuizQuestion(if current.Some? then current.value else 0, questionText, options, correct);
      ghost var started := current != Some(row.questionId);
      if current != Some(row.questionId) {
        if current.Some? {
          qs := qs + [QuizQuestion(current.value, questionText, options, correct)];
        }
        current := Some(row.questionId);
        questionText := row.questionText;
        options := [];
        correct := 0;
        assert Grouped(rows[..i + 1]) == qs + [Start(row)];
      } else {
        assert (qs + [cur])[..|qs|] == qs;
        assert Grouped(rows[..i + 1]) == qs + [Extend(cur, row)];
      }
      options := options + [row.optionText];
      if row.isCorrect {
        correct := |options| - 1;
      }
      assert current == Some(row.questionId);
      if started {
        assert options == [row.optionText] && correct == 0;
        assert Grouped(rows[..i + 1]) == qs + [QuizQuestion(current.value, questionText, options, correct)];
      } else {
        assert Extend(cur, row).options == options;
        assert Extend(cur, row).correctAnswer == correct;
        assert Grouped(rows[..i + 1]) == qs + [QuizQuestion(current.value, questionText, options, correct)];
      }
    }
    if current.Some? {
      qs := qs + [QuizQuestion(current.value, questionText, options, correct)];
    }
    assert rows[..|rows|] == rows;
    GroupedWellFormed(rows);
    GroupedKeepsEveryOption(rows);
  }

  function Texts(rs: seq<OptionRow>): (ts: seq<string>)
    ensures |ts| == |rs| && forall i :: 0 <= i < |rs| ==> ts[i] == rs[i].optionText
  {
    seq(|rs|, i requires 0 <= i < |rs| => rs[i].optionText)
  }

  /** Every question's options, one after the other. */
  function AllOptions(qs: seq<QuizQuestion>): seq<string> {
    if qs == [] then [] else AllOptions(qs[..|qs| - 1]) + qs[|qs| - 1].options
  }

  lemma AddRowKeepsOptions(prev: seq<QuizQuestion>, r: OptionRow)
    ensures AllOptions(AddRow(prev, r)) == AllOptions(prev) + [r.optionText]
  {
    var qs := AddRow(prev, r);
    if prev != [] && prev[|prev| - 1].id == r.questionId {
      var init := prev[..|prev| - 1];
      assert qs[..|qs| - 1] == init;
      assert AllOptions(prev) == AllOptions(init) + prev[|prev| - 1].options;
    } else {
      assert qs[..|qs| - 1] == prev;
    }
  }

  lemma TextsSnoc(rows: seq<OptionRow>)
    requires rows != []
    ensures Texts(rows) == Texts(rows[..|rows| - 1]) + [rows[|rows| - 1].optionText]
  {
    var p := rows[..|rows| - 1];
    assert forall i :: 0 <= i < |p| ==> p[i] == rows[i];
  }

  /** One option per row, in row order: grouping loses and reorders nothing, whatever the row order. */
  lemma {:induction false} GroupedKeepsEveryOption(rows: seq<OptionRow>)
    ensures AllOptions(Grouped(rows)) == Texts(rows)
  {
    if rows != [] {
      var p, r := rows[..|rows| - 1], rows[|rows| - 1];
      GroupedKeepsEveryOption(p);
      assert Grouped(rows) == AddRow(Grouped(p), r);
      AddRowKeepsOptions(Grouped(p), r);
      TextsSnoc(rows);
    }
  }

  /** The rows of question `q`, in row order. */
  function RowsOf(rows: seq<OptionRow>, q: int): (rs: seq<OptionRow>)
    ensures |rs| <= |rows|
    ensures forall r :: r in rs ==> r in rows && r.questionId == q
  {
    if rows == [] then []
    else RowsOf(rows[..|rows| - 1], q) + (if rows[|rows| - 1].questionId == q then [rows[|rows| - 1]] else [])
  }

  /** The index of the last correct row, 0 when none is correct. */
  function LastCorrect(rs: seq<OptionRow>): (k: nat)
    ensures rs == [] ==> k == 0
    ensures rs != [] ==> k < |rs|
    ensures 0 < k < |rs| ==> rs[k].isCorrect
    ensures forall i :: k < i < |rs| ==> !rs[i].isCorrect
  {
    if rs == [] then 0
    else if rs[|rs| - 1].isCorrect then |rs| - 1
    else LastCorrect(rs[..|rs| - 1])
  }

  predicate SortedById(rows: seq<OptionRow>) {
    forall i, j :: 0 <= i < j < |rows| ==> rows[i].questionId <= rows[j].questionId
  }

  /** Question ids strictly increase along the list. */
  predicate Increasing(qs: seq<QuizQuestion>) {
    forall k, l :: 0 <= k < l < |qs| ==> qs[k].id < qs[l].id
  }

  /** Every row's question id has a question. */
  predicate Covers(rows: seq<OptionRow>, qs: seq<QuizQuestion>) {
    forall r :: r in rows ==> exists k :: 0 <= k < |qs| && qs[k].id == r.questionId
  }

  /** Question k is built from exactly the rows of its id: their texts in row order, the first one's
      question text, and the index of the last correct one. */
  predicate FromOwnRows(rows: seq<OptionRow>, q: QuizQuestion) {
    var rs := RowsOf(rows, q.id);
    rs != [] && q.options == Texts(rs) && q.question == rs[0].questionText && q.correctAnswer == LastCorrect(rs)
  }

  predicate Faithful(rows: seq<OptionRow>, qs: seq<QuizQuestion>) {
    forall k :: 0 <= k < |qs| ==> FromOwnRows(rows, qs[k])
  }

  /** The questions are in increasing id order, one for every row's id, each built from its own rows. */
  predicate GroupedFaithfully(rows: seq<OptionRow>, qs: seq<QuizQuestion>) {
    Increasing(qs) && Covers(rows, qs) && Faithful(rows, qs)
  }

  lemma RowsOfSnoc(p: seq<OptionRow>, r: OptionRow, q: int)
    ensures RowsOf(p + [r], q) == RowsOf(p, q) + (if r.questionId == q then [r] else [])
  {
    assert (p + [r])[..|p|] == p;
  }

  /** A question not about row r keeps its rows when r is added. */
  lemma FromOwnRowsSnoc(p: seq<OptionRow>, r: OptionRow, q: QuizQuestion)
    requires FromOwnRows(p, q) && q.id != r.questionId
    ensures FromOwnRows(p + [r], q)
  {
    RowsOfSnoc(p, r, q.id);
  }

  /** Extending the current question with a row of its own id keeps it built from its rows. */
  lemma ExtendFromOwnRows(p: seq<OptionRow>, r: OptionRow, q: QuizQuestion)
    requires FromOwnRows(p, q) && q.id == r.questionId
    ensures FromOwnRows(p + [r], Extend(q, r))
  {
    RowsOfSnoc(p, r, q.id);
    var rs := RowsOf(p, q.id);
    var more := rs + [r];
    assert more[..|rs|] == rs && more[0] == rs[0];
    assert LastCorrect(more) == if r.isCorrect then |rs| else LastCorrect(rs);
    TextsSnoc(more);
  }

  lemma {:induction false} RowsOfAbsent(p: seq<OptionRow>, q: int)
    requires forall x :: x in p ==> x.questionId != q
    ensures RowsOf(p, q) == []
  {
    if p != [] {
      assert p[|p| - 1] in p;
      assert forall x :: x in p[..|p| - 1] ==> x in p;
      RowsOfAbsent(p[..|p| - 1], q);
    }
  }

  /** A row of an id no earlier row has starts a question built from that row alone. */
  lemma StartFromOwnRows(p: seq<OptionRow>, r: OptionRow)
    requires forall x :: x in p ==> x.questionId != r.questionId
    ensures FromOwnRows(p + [r], Start(r))
  {
    RowsOfSnoc(p, r, r.questionId);
    RowsOfAbsent(p, r.questionId);
    assert [] + [r] == [r];
  }

  /** A row of the last question's id extends it: every question stays built from its own rows. */
  lemma ExtendFaithful(p: seq<OptionRow>, r: OptionRow, prev: seq<QuizQuestion>, qs: seq<QuizQuestion>)
    requires prev != [] && prev[|prev| - 1].id == r.questionId
    requires qs == prev[..|prev| - 1] + [Extend(prev[|prev| - 1], r)]
    requires Increasing(prev) && Faithful(p, prev)
    ensures Faithful(p + [r], qs)
  {
    forall k | 0 <= k < |qs|
      ensures FromOwnRows(p + [r], qs[k])
    {
      if k < |qs| - 1 {
        assert qs[k] == prev[k];
        assert FromOwnRows(p, prev[k]);
        FromOwnRowsSnoc(p, r, prev[k]);
      } else {
        assert FromOwnRows(p, prev[k]);
        ExtendFromOwnRows(p, r, prev[k]);
      }
    }
  }

  lemma ExtendCovers(p: seq<OptionRow>, r: OptionRow, prev: seq<QuizQuestion>, qs: seq<QuizQuestion>)
    requires prev != [] && prev[|prev| - 1].id == r.questionId
    requires qs == prev[..|prev| - 1] + [Extend(prev[|prev| - 1], r)]
    requires Covers(p, prev)
    ensures Covers(p + [r], qs) && (Increasing(prev) ==> Increasing(qs))
  {
    forall k | 0 <= k < |qs|
      ensures qs[k].id == prev[k].id
    {
      if k < |qs| - 1 {
        assert qs[k] == prev[k];
      }
    }
    forall x | x in p + [r]
      ensures exists k :: 0 <= k < |qs| && qs[k].id == x.questionId
    {
      if x in p {
        var k :| 0 <= k < |prev| && prev[k].id == x.questionId;
        assert qs[k].id == x.questionId;
      } else {
        assert qs[|qs| - 1].id == x.questionId;
      }
    }
  }

  /** A row of a larger id than every earlier question starts a new question. */
  lemma StartFaithful(p: seq<OptionRow>, r: OptionRow, prev: seq<QuizQuestion>)
    requires forall k :: 0 <= k < |prev| ==> prev[k].id < r.questionId
    requires forall x :: x in p ==> x.questionId != r.questionId
    requires Faithful(p, prev)
    ensures Faithful(p + [r], prev + [Start(r)])
  {
    StartFromOwnRows(p, r);
    OthersStayFaithful(p, r, prev);
    AppendFaithful(p + [r], prev, Start(r));
  }

  /** A question built from its own rows can be appended to faithful questions. */
  lemma AppendFaithful(rows: seq<OptionRow>, qs: seq<QuizQuestion>, q: QuizQuestion)
    requires Faithful(rows, qs) && FromOwnRows(rows, q)
    ensures Faithful(rows, qs + [q])
  {
    forall k | 0 <= k < |qs| + 1
      ensures FromOwnRows(rows, (qs + [q])[k])
    {
      if k < |qs| {
        assert (qs + [q])[k] == qs[k];
      } else {
        assert (qs + [q])[k] == q;
      }
    }
  }

  /** No earlier row has the id of a row above every earlier question. */
  lemma NewIdAbsent(p: seq<OptionRow>, r: OptionRow, prev: seq<QuizQuestion>)
    requires forall k :: 0 <= k < |prev| ==> prev[k].id < r.questionId
    requires Covers(p, prev)
    ensures forall x :: x in p ==> x.questionId != r.questionId
  {
    forall x | x in p
      ensures x.questionId != r.questionId
    {
      var k :| 0 <= k < |prev| && prev[k].id == x.questionId;
    }
  }

  /** Questions of other ids keep their rows when r is added. */
  lemma OthersStayFaithful(p: seq<OptionRow>, r: OptionRow, prev: seq<QuizQuestion>)
    requires forall k :: 0 <= k < |prev| ==> prev[k].id < r.questionId
    requires Faithful(p, prev)
    ensures Faithful(p + [r], prev)
  {
    forall k | 0 <= k < |prev|
      ensures FromOwnRows(p + [r], prev[k])
    {
      FromOwnRowsSnoc(p, r, prev[k]);
    }
  }

  lemma StartCovers(p: seq<OptionRow>, r: OptionRow, prev: seq<QuizQuestion>)
    requires forall k :: 0 <= k < |prev| ==> prev[k].id < r.questionId
    requires Covers(p, prev) && Increasing(prev)
    ensures Covers(p + [r], prev + [Start(r)]) && Increasing(prev + [Start(r)])
  {
    var qs := prev + [Start(r)];
    forall x | x in p + [r]
      ensures exists k :: 0 <= k < |qs| && qs[k].id == x.questionId
    {
      if x in p {
        var k :| 0 <= k < |prev| && prev[k].id == x.questionId;
        assert qs[k].id == x.questionId;
      } else {
        assert qs[|qs| - 1].id == x.questionId;
      }
    }
  }

  lemma ExtendStep(p: seq<OptionRow>, r: OptionRow, prev: seq<QuizQuestion>, qs: seq<QuizQuestion>)
    requires prev != [] && prev[|prev| - 1].id == r.questionId
    requires qs == prev[..|prev| - 1] + [Extend(prev[|prev| - 1], r)]
    requires GroupedFaithfully(p, prev)
    ensures GroupedFaithfully(p + [r], qs)
  {
    ExtendFaithful(p, r, prev, qs);
    ExtendCovers(p, r, prev, qs);
  }

  lemma StartStep(p: seq<OptionRow>, r: OptionRow, prev: seq<QuizQuestion>)
    requires forall k :: 0 <= k < |prev| ==> prev[k].id < r.questionId
    requires GroupedFaithfully(p, prev)
    ensures GroupedFaithfully(p + [r], prev + [Start(r)])
  {
    NewIdAbsent(p, r, prev);
    StartFaithful(p, r, prev);
    StartCovers(p, r, prev);
  }

  /** On rows ordered by question id (the query's ORDER BY), grouping yields one question per distinct
      id, in increasing id order; each question's options are the texts of that id's rows in row order,
      its text is that of its first row, and its `correctAnswer` is the index of the last correct
      option, or 0 when none is correct. */
  lemma {:induction false} GroupedMatchesRowsOf(rows: seq<OptionRow>)
    requires SortedById(rows)
    ensures GroupedFaithfully(rows, Grouped(rows))
  {
    if rows != [] {
      var p := rows[..|rows| - 1];
      var r := rows[|rows| - 1];
      assert rows == p + [r];
      SortedPrefix(p, r);
      GroupedMatchesRowsOf(p);
      GroupedStep(p, r);
    }
  }

  lemma SortedPrefix(p: seq<OptionRow>, r: OptionRow)
    requires SortedById(p + [r])
    ensures SortedById(p)
  {
    forall i, j | 0 <= i < j < |p|
      ensures p[i].questionId <= p[j].questionId
    {
      assert (p + [r])[i] == p[i] && (p + [r])[j] == p[j];
    }
  }

  /** One more row keeps the grouping faithful. */
  lemma GroupedStep(p: seq<OptionRow>, r: OptionRow)
    requires SortedById(p + [r]) && GroupedFaithfully(p, Grouped(p))
    ensures GroupedFaithfully(p + [r], Grouped(p + [r]))
  {
    assert (p + [r])[..|p|] == p;
    var prev := Grouped(p);
    if prev != [] && prev[|prev| - 1].id == r.questionId {
      var qs := prev[..|prev| - 1] + [Extend(prev[|prev| - 1], r)];
      assert Grouped(p + [r]) == qs;
      ExtendStep(p, r, prev, qs);
    } else {
      LastIdBelow(p, r, prev);
      assert Grouped(p + [r]) == prev + [Start(r)];
      StartStep(p, r, prev);
    }
  }

  lemma LastIdBelow(p: seq<OptionRow>, r: OptionRow, prev: seq<QuizQuestion>)
    requires SortedById(p + [r]) && prev == Grouped(p) && Increasing(prev)
    requires !(prev != [] && prev[|prev| - 1].id == r.questionId)
    ensures forall k :: 0 <= k < |prev| ==> prev[k].id < r.questionId
  {
    if prev != [] {
      assert prev[|prev| - 1].id == p[|p| - 1].questionId;
      assert (p + [r])[|p| - 1] == p[|p| - 1];
      assert (p + [r])[|p|] == r;
    }
  }

  /** The option rows `create_lecture` writes for one question: option i is marked correct iff i equals
      the submitted `correctAnswer`. */
  function InsertedRows(questionId: int, question: string, options: seq<string>, correctAnswer: int): (rs: seq<OptionRow>)
    ensures |rs| == |options|
    ensures forall i :: 0 <= i < |rs| ==> rs[i] == OptionRow(questionId, question, options[i], i == correctAnswer)
  {
    seq(|options|, i requires 0 <= i < |options| => OptionRow(questionId, question, options[i], i == correctAnswer))
  }

  /** The option loop of `create_lecture`: one insert per option, in option order. */
  method InsertOptions(questionId: int, question: string, options: seq<string>, correctAnswer: int)
    returns (rs: seq<OptionRow>)
    ensures rs == InsertedRows(questionId, question, options, correctAnswer)
  {
    rs := [];
    for i := 0 to |options|
      invariant rs == InsertedRows(questionId, question, options[..i], correctAnswer)
    {
      rs := rs + [OptionRow(questionId, question, options[i], i == correctAnswer)];
    }
    assert options[..|options|] == options;
  }

  /** At most one option of a written question is correct, and exactly one when the submitted index is
      in range. */
  lemma AtMostOneCorrect(questionId: int, question: string, options: seq<string>, correctAnswer: int)
    ensures var rs := InsertedRows(questionId, question, options, correctAnswer);
            (forall i, j :: 0 <= i < j < |rs| ==> !(rs[i].isCorrect && rs[j].isCorrect))
            && ((exists i :: 0 <= i < |rs| && rs[i].isCorrect) <==> 0 <= correctAnswer < |options|)
  {
    var rs := InsertedRows(questionId, question, options, correctAnswer);
    if 0 <= correctAnswer < |options| {
      assert rs[correctAnswer].isCorrect;
    }
  }

  /** A question written by `create_lecture` reads back through `get_lecture_details` with its text,
      its options in order, and its `correctAnswer` when that was in range (0 otherwise). A question
      written with no options does not read back at all. */
  lemma {:induction false} QuizRoundTrip(questionId: int, question: string, options: seq<string>, correctAnswer: int)
    ensures Grouped(InsertedRows(questionId, question, options, correctAnswer)) ==
              if options == [] then []
              else [QuizQuestion(questionId, question, options,
                                 if 0 <= correctAnswer < |options| then correctAnswer else 0)]
    decreases |options|
  {
    if |options| > 0 {
      var n := |options|;
      var init := options[..n - 1];
      var r := OptionRow(questionId, question, options[n - 1], n - 1 == correctAnswer);
      InsertedRowsSnoc(questionId, question, options, correctAnswer);
      QuizRoundTrip(questionId, question, init, correctAnswer);
      var rs := InsertedRows(questionId, question, options, correctAnswer);
      assert Grouped(rs) == AddRow(Grouped(InsertedRows(questionId, question, init, correctAnswer)), r);
      if n == 1 {
        assert InsertedRows(questionId, question, init, correctAnswer) == [];
        assert Grouped(rs) == [Start(r)];
        assert options == [options[0]];
      } else {
        var q := QuizQuestion(questionId, question, init, if 0 <= correctAnswer < n - 1 then correctAnswer else 0);
        assert [q][..0] + [Extend(q, r)] == [Extend(q, r)];
        assert Grouped(rs) == [Extend(q, r)];
        ExtendInserted(questionId, question, options, correctAnswer);
      }
    }
  }

  lemma InsertedRowsSnoc(questionId: int, question: string, options: seq<string>, correctAnswer: int)
    requires options != []
    ensures var n := |options|;
            var rs := InsertedRows(questionId, question, options, correctAnswer);
            rs[..n - 1] == InsertedRows(questionId, question, options[..n - 1], correctAnswer)
            && rs[n - 1] == OptionRow(questionId, question, options[n - 1], n - 1 == correctAnswer)
  {
  }

  /** The last inserted option extends the question of the earlier ones into that of all of them. */
  lemma ExtendInserted(questionId: int, question: string, options: seq<string>, correctAnswer: int)
    requires |options| > 1
    ensures var n := |options|;
            var q := QuizQuestion(questionId, question, options[..n - 1], if 0 <= correctAnswer < n - 1 then correctAnswer else 0);
            Extend(q, OptionRow(questionId, question, options[n - 1], n - 1 == correctAnswer))
            == QuizQuestion(questionId, question, options, if 0 <= correctAnswer < n then correctAnswer else 0)
  {
    assert options[..|options| - 1] + [options[|options| - 1]] == options;
  }


  /** The `correct_answers` dict of `submit_quiz_answers`, over the rows it reads (options marked
      correct): question id -> option text, the last row winning when a question has several. */
  function CorrectAnswers(rows: seq<OptionRow>): (m: map<int, string>)
    ensures forall q :: q in m <==> exists i :: 0 <= i < |rows| && rows[i].isCorrect && rows[i].questionId == q
  {
    if rows == [] then map[]
    else
      var p := rows[..|rows| - 1];
      var r := rows[|rows| - 1];
      var m := CorrectAnswers(p);
      assert forall i :: 0 <= i < |p| ==> p[i] == rows[i];
      if r.isCorrect then m[r.questionId := r.optionText] else m
  }

  /** The written rows of a question grade against the text of its submitted correct option, or
      against nothing when the submitted index was out of range. */
  lemma {:induction false} CorrectAnswersOfInserted(questionId: int, question: string, options: seq<string>, correctAnswer: int)
    ensures CorrectAnswers(InsertedRows(questionId, question, options, correctAnswer)) ==
              if 0 <= correctAnswer < |options| then map[questionId := options[correctAnswer]] else map[]
    decreases |options|
  {
    var rs := InsertedRows(questionId, question, options, correctAnswer);
    if |options| > 0 {
      var n := |options|;
      var init := options[..n - 1];
      assert rs[..n - 1] == InsertedRows(questionId, question, init, correctAnswer);
      CorrectAnswersOfInserted(questionId, question, init, correctAnswer);
      if correctAnswer == n - 1 {
        assert options[correctAnswer] == rs[n - 1].optionText;
      }
    }
  }

  /** `str(q_id) in map(str, correct_answers.keys())`: the submitted id printed, compared with the
      stored ids printed. */
  predicate ListedAsString(q: int, keys: set<int>) {
    exists k :: k in keys && IntToString(k) == IntToString(q)
  }

  /** Comparing printed forms is comparing the ids. */
  lemma ListedAsStringIff(q: int, keys: set<int>)
    ensures ListedAsString(q, keys) <==> q in keys
  {
    if ListedAsString(q, keys) {
      var k :| k in keys && IntToString(k) == IntToString(q);
      IntToStringInjective(k, q);
    }
    if q in keys {
      assert IntToString(q) == IntToString(q);
    }
  }

  /** The submitted answers that match the stored correct text. */
  function Matched(correct: map<int, string>, answers: map<int, string>): (s: set<int>)
    ensures s <= correct.Keys && s <= answers.Keys
  {
    set q | q in answers && q in correct && answers[q] == correct[q]
  }

  lemma SubsetCard(a: set<int>, b: set<int>)
    requires a <= b
    ensures |a| <= |b|
  {
    assert b == a + (b - a);
  }

  /** `correct_count` of `submit_quiz_answers`, or None for its 500 "No questions found for this quiz"
      when no question has a correct option. */
  function CorrectCount(correct: map<int, string>, answers: map<int, string>): (r: Option<nat>)
    ensures r.None? <==> |correct| == 0
    ensures r.Some? ==> r.value <= |correct| && r.value <= |answers|
  {
    if |correct| == 0 then None
    else
      var s := Matched(correct, answers);
      SubsetCard(s, correct.Keys);
      SubsetCard(s, answers.Keys);
      Some(|s|)
  }

  /** Answering every question with its correct text scores every question. */
  lemma PerfectSubmission(correct: map<int, string>)
    requires |correct| > 0
    ensures CorrectCount(correct, correct) == Some(|correct|)
  {
    assert Matched(correct, correct) == correct.Keys;
  }

  /** An answer to a question the quiz does not have changes nothing. */
  lemma UnknownQuestionIgnored(correct: map<int, string>, answers: map<int, string>, q: int, a: string)
    requires q !in correct
    ensures CorrectCount(correct, answers[q := a]) == CorrectCount(correct, answers)
  {
    assert Matched(correct, answers[q := a]) == Matched(correct, answers);
  }

  // ---------------------------------------------------------------------------------------------
  // Course completion (`submit_quiz_answers`)

  /** The `Percentage` written to the enrolment: the raw percentage `passed * 100 / total` put in a
      20-point bucket (below 10 -> 0, below 30 -> 20, ..., 90 and above -> 100), compared exactly.
      None when the course has no lectures, where nothing is written. */
  function CompletionPercentage(passed: int, total: int): (p: Option<int>)
    ensures p.None? <==> total <= 0
    ensures p.Some? ==> p.value in {0, 20, 40, 60, 80, 100}
    ensures p.Some? ==> (p.value == 100 <==> passed * 100 >= 90 * total)
    ensures p.Some? ==> (p.value == 0 || (p.value - 10) * total <= passed * 100)
                        && (p.value == 100 || passed * 100 < (p.value + 10) * total)
  {
    if total <= 0 then None
    else if passed * 100 < 10 * total then Some(0)
    else if passed * 100 < 30 * total then Some(20)
    else if passed * 100 < 50 * total then Some(40)
    else if passed * 100 < 70 * total then Some(60)
    else if passed * 100 < 90 * total then Some(80)
    else Some(100)
  }

  /** Passing more lectures never lowers the bucket. */
  lemma CompletionMonotone(a: int, b: int, total: int)
    requires total > 0 && a <= b
    ensures CompletionPercentage(a, total).value <= CompletionPercentage(b, total).value
  {
  }

  // ---------------------------------------------------------------------------------------------
  // Passed lectures per day (`get_user_dashboard`)

  /** A passed-lecture row: its formatted date and its score. */
  datatype PassedRow = PassedRow(date: string, score: int)

  /** One day of the statistics: the lectures passed that day and the sum of their scores (the average
      is that sum over the count). */
  datatype DayStat = DayStat(date: string, count: nat, scoreTotal: int)

  function Dates(rows: seq<PassedRow>): (ds: seq<string>)
    ensures |ds| == |rows|
  {
    if rows == [] then [] else Dates(rows[..|rows| - 1]) + [rows[|rows| - 1].date]
  }

  /** The distinct values of `ds` in order of first occurrence. */
  function FirstOccurrences(ds: seq<string>): (u: seq<string>)
    ensures forall d :: d in u <==> d in ds
    ensures forall i, j :: 0 <= i < j < |u| ==> u[i] != u[j]
  {
    if ds == [] then []
    else
      var p := ds[..|ds| - 1];
      var u := FirstOccurrences(p);
      assert forall d :: d in p ==> d in ds;
      if ds[|ds| - 1] in p then u else u + [ds[|ds| - 1]]
  }

  function CountOf(rows: seq<PassedRow>, d: string): nat {
    if rows == [] then 0 else CountOf(rows[..|rows| - 1], d) + (if rows[|rows| - 1].date == d then 1 else 0)
  }

  function ScoreOf(rows: seq<PassedRow>, d: string): int {
    if rows == [] then 0 else ScoreOf(rows[..|rows| - 1], d) + (if rows[|rows| - 1].date == d then rows[|rows| - 1].score else 0)
  }

  /** The grouping loop and the formatting loop of `get_user_dashboard`: one entry per distinct date in
      order of first occurrence (the dict's insertion order), with that date's count and score sum. */
  method GroupByDate(rows: seq<PassedRow>) returns (stats: seq<DayStat>)
    ensures var days := FirstOccurrences(Dates(rows));
            |stats| == |days|
            && forall k :: 0 <= k < |stats| ==> stats[k] == DayStat(days[k], CountOf(rows, days[k]), ScoreOf(rows, days[k]))
  {
    var order: seq<string> := [];
    var counts: map<string, nat> := map[];
    var totals: map<string, int> := map[];
    for i := 0 to |rows|
      invariant Tallies(order, counts, totals) == Tally(rows[..i])
    {
      var d := rows[i].date;
      assert rows[..i + 1][..i] == rows[..i];
      if d !in counts {
        order := order + [d];
      }
      counts := counts[d := (if d !in counts then 0 else counts[d]) + 1];
      totals := totals[d := (if d !in totals then 0 else totals[d]) + rows[i].score];
    }
    assert rows[..|rows|] == rows;
    TallyOrder(rows);
    forall d | d in order
      ensures d in counts && d in totals && counts[d] == CountOf(rows, d) && totals[d] == ScoreOf(rows, d)
    {
      TallyCounts(rows, d);
      TallyTotals(rows, d);
    }
    stats := FormatDays(order, counts, totals);
  }

  /** The two dicts of the grouping loop: the dates in insertion order, the count per date and the
      score sum per date. */
  datatype Tallies = Tallies(order: seq<string>, counts: map<string, nat>, totals: map<string, int>)

  /** One turn of the grouping loop. */
  function Step(t: Tallies, r: PassedRow): Tallies {
    Tallies(if r.date !in t.counts then t.order + [r.date] else t.order,
            t.counts[r.date := (if r.date !in t.counts then 0 else t.counts[r.date]) + 1],
            t.totals[r.date := (if r.date !in t.totals then 0 else t.totals[r.date]) + r.score])
  }

  /** The dicts after the rows `p`. */
  function Tally(p: seq<PassedRow>): Tallies
    decreases |p|
  {
    if p == [] then Tallies([], map[], map[]) else Step(Tally(p[..|p| - 1]), p[|p| - 1])
  }

  /** A date has a count iff some row has it, and the count is its number of rows. */
  lemma {:induction false} TallyCounts(p: seq<PassedRow>, d: string)
    ensures d in Tally(p).counts <==> d in Dates(p)
    ensures d in Tally(p).counts ==> Tally(p).counts[d] == CountOf(p, d)
    decreases |p|
  {
    if p != [] {
      var q := p[..|p| - 1];
      TallyCounts(q, d);
      if d !in Tally(q).counts {
        CountOfAbsent(q, d);
      }
    }
  }

  /** A date has a score sum iff some row has it, and the sum is that of its rows' scores. */
  lemma {:induction false} TallyTotals(p: seq<PassedRow>, d: string)
    ensures d in Tally(p).totals <==> d in Dates(p)
    ensures d in Tally(p).totals ==> Tally(p).totals[d] == ScoreOf(p, d)
    decreases |p|
  {
    if p != [] {
      var q := p[..|p| - 1];
      TallyTotals(q, d);
      if d !in Tally(q).totals {
        ScoreOfAbsent(q, d);
      }
    }
  }

  /** The dates are kept in order of first occurrence. */
  lemma {:induction false} TallyOrder(p: seq<PassedRow>)
    ensures Tally(p).order == FirstOccurrences(Dates(p))
    decreases |p|
  {
    if p != [] {
      var q, r := p[..|p| - 1], p[|p| - 1];
      TallyOrder(q);
      TallyCounts(q, r.date);
      assert Dates(p)[..|p| - 1] == Dates(q);
    }
  }

  lemma CountSnoc(p: seq<PassedRow>, r: PassedRow, d: string)
    ensures CountOf(p + [r], d) == CountOf(p, d) + (if r.date == d then 1 else 0)
  {
    assert (p + [r])[..|p|] == p;
  }

  lemma ScoreSnoc(p: seq<PassedRow>, r: PassedRow, d: string)
    ensures ScoreOf(p + [r], d) == ScoreOf(p, d) + (if r.date == d then r.score else 0)
  {
    assert (p + [r])[..|p|] == p;
  }

  /** The formatting loop: the days in dict order with their count and score sum. */
  method FormatDays(order: seq<string>, counts: map<string, nat>, totals: map<string, int>) returns (stats: seq<DayStat>)
    requires forall d :: d in order ==> d in counts && d in totals
    ensures |stats| == |order|
    ensures forall k :: 0 <= k < |order| ==> stats[k] == DayStat(order[k], counts[order[k]], totals[order[k]])
  {
    stats := [];
    for k := 0 to |order|
      invariant |stats| == k
      invariant forall j :: 0 <= j < k ==> stats[j] == DayStat(order[j], counts[order[j]], totals[order[j]])
    {
      stats := stats + [DayStat(order[k], counts[order[k]], totals[order[k]])];
    }
  }

  /** One more row: its date is appended to the days when new. */
  lemma DaySnoc(p: seq<PassedRow>, r: PassedRow)
    ensures FirstOccurrences(Dates(p + [r])) ==
              if r.date in Dates(p) then FirstOccurrences(Dates(p)) else FirstOccurrences(Dates(p)) + [r.date]
    ensures forall d :: d in Dates(p + [r]) <==> d in Dates(p) || d == r.date
  {
    assert (p + [r])[..|p|] == p;
    assert Dates(p + [r]) == Dates(p) + [r.date];
    assert (Dates(p) + [r.date])[..|p|] == Dates(p);
  }

  lemma {:induction false} CountOfAbsent(rows: seq<PassedRow>, d: string)
    requires d !in Dates(rows)
    ensures CountOf(rows, d) == 0
  {
    if rows != [] {
      var p := rows[..|rows| - 1];
      assert Dates(rows) == Dates(p) + [rows[|rows| - 1].date];
      CountOfAbsent(p, d);
    }
  }

  lemma {:induction false} ScoreOfAbsent(rows: seq<PassedRow>, d: string)
    requires d !in Dates(rows)
    ensures ScoreOf(rows, d) == 0
  {
    if rows != [] {
      var p := rows[..|rows| - 1];
      assert Dates(rows) == Dates(p) + [rows[|rows| - 1].date];
      ScoreOfAbsent(p, d);
    }
  }

  /** The counts of the given days, added up. */
  function SumCounts(rows: seq<PassedRow>, days: seq<string>): nat {
    if days == [] then 0 else SumCounts(rows, days[..|days| - 1]) + CountOf(rows, days[|days| - 1])
  }

  lemma {:induction false} SumCountsSnoc(p: seq<PassedRow>, r: PassedRow, days: seq<string>)
    requires forall i, j :: 0 <= i < j < |days| ==> days[i] != days[j]
    ensures SumCounts(p + [r], days) == SumCounts(p, days) + (if r.date in days then 1 else 0)
  {
    assert (p + [r])[..|p|] == p;
    if days != [] {
      var init := days[..|days| - 1];
      SumCountsSnoc(p, r, init);
      assert r.date in days <==> r.date in init || r.date == days[|days| - 1];
    }
  }

  /** The per-day counts add up to the number of passed rows: every row is counted on exactly one day. */
  lemma {:induction false} DayCountsSumToRows(rows: seq<PassedRow>)
    ensures SumCounts(rows, FirstOccurrences(Dates(rows))) == |rows|
  {
    if rows != [] {
      var p := rows[..|rows| - 1];
      var r := rows[|rows| - 1];
      assert rows == p + [r];
      DayCountsSumToRows(p);
      var u := FirstOccurrences(Dates(p));
      assert Dates(rows) == Dates(p) + [r.date];
      assert Dates(rows)[..|p|] == Dates(p);
      SumCountsSnoc(p, r, u);
      if r.date !in Dates(p) {
        CountOfAbsent(p, r.date);
        assert FirstOccurrences(Dates(rows)) == u + [r.date];
        assert (u + [r.date])[..|u|] == u;
      }
    }
  }

  // ---------------------------------------------------------------------------------------------
  // Profile update (`update_user_profile`)

  /** The body keys a role may change, in the order they are tested, each with its SET clause. */
  function EditableColumns(role: string): seq<(string, string)> {
    if role == "Learner" then [("name", "LearnerName = %s"), ("email", "Email = %s"), ("phoneNumber", "PhoneNumber = %s")]
    else if role == "Instructor" then [("name", "InstructorName = %s"), ("email", "Email = %s"), ("expertise", "Expertise = %s")]
    else []
  }

  /** The `update_fields` and `params` lists before the username is appended: for each key of the
      table present in the body, in table order, its clause and the body's value. */
  function SetList(columns: seq<(string, string)>, body: map<string, string>): (r: (seq<string>, seq<string>))
    ensures |r.0| == |r.1|
    ensures r.0 == [] <==> forall i :: 0 <= i < |columns| ==> columns[i].0 !in body
  {
    if columns == [] then ([], [])
    else
      var rest := SetList(columns[1..], body);
      assert forall i :: 1 <= i < |columns| ==> columns[i] == columns[1..][i - 1];
      if columns[0].0 in body then ([columns[0].1] + rest.0, [body[columns[0].0]] + rest.1)
      else rest
  }

  /** Keys outside the table never reach the statement: a learner cannot set `Expertise`, and nobody
      sets a column the table does not list. */
  lemma {:induction false} SetListIgnoresOtherKeys(columns: seq<(string, string)>, body: map<string, string>, k: string, v: string)
    requires forall i :: 0 <= i < |columns| ==> columns[i].0 != k
    ensures SetList(columns, body[k := v]) == SetList(columns, body)
    decreases |columns|
  {
    if columns != [] {
      SetListIgnoresOtherKeys(columns[1..], body, k, v);
    }
  }

  /** A learner sending all three keys sets all three columns, in order, with the values in the same
      order. */
  lemma LearnerFullUpdate(body: map<string, string>)
    requires "name" in body && "email" in body && "phoneNumber" in body
    ensures var sl := SetList(EditableColumns("Learner"), body);
            sl.0 == ["LearnerName = %s", "Email = %s", "PhoneNumber = %s"]
            && sl.1 == [body["name"], body["email"], body["phoneNumber"]]
  {
    var c3 := [("phoneNumber", "PhoneNumber = %s")];
    var c2 := [("email", "Email = %s")] + c3;
    assert c3[1..] == [] && c2[1..] == c3 && EditableColumns("Learner")[1..] == c2;
    var s3 := SetList(c3, body);
    assert s3.0 == ["PhoneNumber = %s"] && s3.1 == [body["phoneNumber"]];
    var s2 := SetList(c2, body);
    assert s2.0 == ["Email = %s", "PhoneNumber = %s"] && s2.1 == [body["email"], body["phoneNumber"]];
  }

  /** Each key is tested on its own: a learner sending only `email` sets only `Email`. */
  lemma LearnerEmailOnly(body: map<string, string>)
    requires "email" in body && "name" !in body && "phoneNumber" !in body
    ensures var sl := SetList(EditableColumns("Learner"), body);
            sl.0 == ["Email = %s"] && sl.1 == [body["email"]]
  {
    var c3 := [("phoneNumber", "PhoneNumber = %s")];
    var c2 := [("email", "Email = %s")] + c3;
    assert c3[1..] == [] && c2[1..] == c3 && EditableColumns("Learner")[1..] == c2;
    var s3 := SetList(c3, body);
    assert s3.0 == [] && s3.1 == [];
    var s2 := SetList(c2, body);
    assert s2.0 == ["Email = %s"] && s2.1 == [body["email"]];
  }

  /** What `decode_token` yields for a valid token. */
  datatype Claims = Claims(username: string, role: string)

  /** How the code inside an endpoint's token-verification `try` ended: normally, by an
      `HTTPException` with a status, or by any other exception. */
  datatype Exit = Normal | HttpError(code: int) | OtherError

  /** The status as the handlers are written: the `except Exception` around that block also catches
      the `HTTPException`s raised inside it, so every failure reaches the client as 401. */
  function StatusAsWritten(e: Exit): (s: int)
    ensures s == 200 <==> e.Normal?
    ensures s == 200 || s == 401
  {
    if e.Normal? then 200 else 401
  }

  /** The status with `except HTTPException: raise` in front of that handler, as the inner block of
      `create_lecture` already does: an HTTP error keeps its own status, anything else is 401. */
  function StatusIntended(e: Exit): (s: int)
    ensures e.HttpError? ==> s == e.code
    ensures e.Normal? ==> s == 200
    ensures e.OtherError? ==> s == 401
  {
    match e
    case Normal => 200
    case HttpError(c) => c
    case OtherError => 401
  }

  /** The `UPDATE <table> SET <clauses joined by ", "> WHERE AccountName = %s` statement and its
      parameters. */
  datatype ProfileUpdate = ProfileUpdate(table: string, clauses: seq<string>, params: seq<string>)

  datatype ProfileRun = ProfileRun(exit: Exit, committed: Option<ProfileUpdate>)

  /** The body of `update_user_profile` inside its token `try`, in the order the source runs it: a failing
      `decode_token` raises; a failing `connect_db` (`connectOk`) raises before the role is looked at;
      an unknown role is a 403; no editable key is a 200 "No fields to update" without a statement; and
      a statement that fails (`sqlOk`) raises. */
  function UpdateProfileBody(claims: Option<Claims>, body: map<string, string>, connectOk: bool, sqlOk: bool): (run: ProfileRun)
    ensures claims.None? || !connectOk ==> run == ProfileRun(OtherError, None)
    ensures claims.Some? && connectOk && claims.value.role != "Learner" && claims.value.role != "Instructor" ==>
              run == ProfileRun(HttpError(403), None)
    ensures run.committed.Some? ==>
              run.exit.Normal? && claims.Some? && connectOk && sqlOk
              && var c := claims.value;
                 var sl := SetList(EditableColumns(c.role), body);
                 run.committed.value.table == (if c.role == "Learner" then "Learners" else "Instructors")
                 && run.committed.value.clauses == sl.0 && sl.0 != []
                 && run.committed.value.params == sl.1 + [c.username]
                 && |run.committed.value.params| == |run.committed.value.clauses| + 1
    ensures claims.Some? && connectOk && (claims.value.role == "Learner" || claims.value.role == "Instructor") ==>
              (run.committed.Some? <==> sqlOk && SetList(EditableColumns(claims.value.role), body).0 != [])
              && (run.exit.Normal? <==> sqlOk || SetList(EditableColumns(claims.value.role), body).0 == [])
              && (!run.exit.Normal? ==> run.exit == OtherError)
  {
    if claims.None? || !connectOk then ProfileRun(OtherError, None)
    else
      var c := claims.value;
      if c.role != "Learner" && c.role != "Instructor" then ProfileRun(HttpError(403), None)
      else
        var sl := SetList(EditableColumns(c.role), body);
        if sl.0 == [] then ProfileRun(Normal, None)
        else if !sqlOk then ProfileRun(OtherError, None)
        else ProfileRun(Normal, Some(ProfileUpdate(if c.role == "Learner" then "Learners" else "Instructors", sl.0, sl.1 + [c.username])))
  }

  /** `update_user_profile` as written: status and committed statement. */
  function UpdateUserProfileAsWritten(cookie: Option<string>, header: Option<string>, claims: Option<Claims>,
                                      body: map<string, string>, connectOk: bool, sqlOk: bool): (r: (int, Option<ProfileUpdate>))
    ensures r.0 == 200 || r.0 == 401
    ensures RequestToken(cookie, header).None? ==> r == (401, None)
    ensures r.0 == 200 <==> RequestToken(cookie, header).Some? && UpdateProfileBody(claims, body, connectOk, sqlOk).exit.Normal?
  {
    if RequestToken(cookie, header).None? then (401, None)
    else
      var run := UpdateProfileBody(claims, body, connectOk, sqlOk);
      (StatusAsWritten(run.exit), run.committed)
  }

  /** `update_user_profile` with HTTP errors passed through: 401 without a usable token, for a bad one or
      when the database cannot be reached; 403 for a role that is neither Learner nor Instructor; 200
      otherwise unless the statement fails. */
  function UpdateUserProfile(cookie: Option<string>, header: Option<string>, claims: Option<Claims>,
                             body: map<string, string>, connectOk: bool, sqlOk: bool): (r: (int, Option<ProfileUpdate>))
    ensures RequestToken(cookie, header).None? || claims.None? || !connectOk ==> r == (401, None)
    ensures r.0 == 403 <==> RequestToken(cookie, header).Some? && claims.Some? && connectOk
                            && claims.value.role != "Learner" && claims.value.role != "Instructor"
    ensures r.0 == 200 || r.0 == 401 || r.0 == 403
    ensures r.1.Some? ==> r.0 == 200
  {
    if RequestToken(cookie, header).None? then (401, None)
    else
      var run := UpdateProfileBody(claims, body, connectOk, sqlOk);
      (StatusIntended(run.exit), run.committed)
  }

  /** As written, a token whose role is neither Learner nor Instructor gets 401 "Invalid authentication
      token or user not found" where the code raised 403 "Invalid user role". */
  lemma InvalidRoleAnswered401(body: map<string, string>, sqlOk: bool)
    ensures UpdateUserProfileAsWritten(Some("t"), None, Some(Claims("u", "Admin")), body, true, sqlOk).0 == 401
    ensures UpdateUserProfile(Some("t"), None, Some(Claims("u", "Admin")), body, true, sqlOk).0 == 403
  {
  }

  /** `connect_db` runs before the role test, so with the database out of reach an invalid role never
      gets as far as its 403: both versions answer 401. */
  lemma UnreachableDatabaseBeforeRole(body: map<string, string>, sqlOk: bool)
    ensures UpdateUserProfileAsWritten(Some("t"), None, Some(Claims("u", "Admin")), body, false, sqlOk) == (401, None)
    ensures UpdateUserProfile(Some("t"), None, Some(Claims("u", "Admin")), body, false, sqlOk) == (401, None)
  {
  }

  /** The two versions differ only in the status: they write the same thing. */
  lemma ProfileSameWrites(cookie: Option<string>, header: Option<string>, claims: Option<Claims>,
                          body: map<string, string>, connectOk: bool, sqlOk: bool)
    ensures UpdateUserProfileAsWritten(cookie, header, claims, body, connectOk, sqlOk).1
            == UpdateUserProfile(cookie, header, claims, body, connectOk, sqlOk).1
    ensures UpdateUserProfile(cookie, header, claims, body, connectOk, sqlOk).0 == 200 <==>
              UpdateUserProfileAsWritten(cookie, header, claims, body, connectOk, sqlOk).0 == 200
  {
  }

  // ---------------------------------------------------------------------------------------------
  // Lecture creation (`create_lecture`)

  const MaxLectureVideoBytes: int := 100 * 1024 * 1024
  const VideoTypePrefix: string := "video/"

  /** The uploaded video: its length in bytes and its declared content type. */
  datatype VideoFile = VideoFile(size: int, contentType: string)

  /** The `quiz` form field: absent or empty, not JSON, or JSON with this many questions. */
  datatype QuizForm = NoQuiz | Unparsable | Parsed(questions: nat)

  datatype LectureRun = LectureRun(exit: Exit, lectureCommitted: bool, videoStored: bool, quizStored: bool)

  /** The video passes the two checks: none was sent, or it is at most 100 MiB and of a video type. */
  predicate VideoAccepted(video: Option<VideoFile>) {
    video.None? || (video.value.size <= MaxLectureVideoBytes && StartsWith(video.value.contentType, VideoTypePrefix))
  }

  /** The quiz has questions to insert. */
  predicate HasQuestions(quiz: QuizForm) {
    quiz.Parsed? && quiz.questions > 0
  }

  /** After the checks, what the inner handler turns into a 500: the object store failing on a video,
      quiz JSON that does not parse, or a failing quiz insert (or a question lacking `options` or
      `correctAnswer`) when there are questions to insert. */
  predicate InnerFailure(video: Option<VideoFile>, quiz: QuizForm, storeOk: bool, quizOk: bool) {
    (video.Some? && !storeOk) || quiz.Unparsable? || (HasQuestions(quiz) && !quizOk)
  }

  /** The caller gets past every test that comes before the lecture insert: an instructor, the
      database reached, the instructor row found and the course theirs. */
  predicate OwnerReached(claims: Option<Claims>, connectOk: bool, instructorFound: bool, ownsCourse: bool) {
    claims.Some? && claims.value.role == "Instructor" && connectOk && instructorFound && ownsCourse
  }

  /** The body of `create_lecture` inside its token `try`, in the order the source runs it. A failing
      `connect_db` (`connectOk`) raises outside the inner `try`. The lecture row is inserted and
      committed (`lectureInsertOk`) as soon as the caller is known to own the course, before the video
      is checked; a failing insert or commit is a 500 with no lecture. A video over 100 MiB or of a
      type not starting with "video/" is then a 400; a failure of the object store or of the quiz JSON
      or of a quiz insert (`quizOk`) is turned into a 500 by the inner handler. */
  function CreateLectureBody(claims: Option<Claims>, connectOk: bool, instructorFound: bool, ownsCourse: bool,
                             lectureInsertOk: bool, video: Option<VideoFile>, quiz: QuizForm,
                             storeOk: bool, quizOk: bool): (run: LectureRun)
    ensures run.lectureCommitted <==> OwnerReached(claims, connectOk, instructorFound, ownsCourse) && lectureInsertOk
    ensures claims.Some? && claims.value.role == "Instructor" && !connectOk ==> run == LectureRun(OtherError, false, false, false)
    ensures run.videoStored ==> run.lectureCommitted && video.Some?
    ensures run.quizStored ==> run.lectureCommitted && run.exit.Normal?
    ensures run.exit == HttpError(400) ==>
              run.lectureCommitted && !run.videoStored && !run.quizStored
              && video.Some? && (video.value.size > MaxLectureVideoBytes || !StartsWith(video.value.contentType, VideoTypePrefix))
    ensures run.lectureCommitted && video.Some? && video.value.size > MaxLectureVideoBytes ==> run.exit == HttpError(400)
    ensures run.exit == HttpError(500) <==>
              (OwnerReached(claims, connectOk, instructorFound, ownsCourse) && !lectureInsertOk)
              || (run.lectureCommitted && VideoAccepted(video) && InnerFailure(video, quiz, storeOk, quizOk))
    ensures run.exit == HttpError(500) ==> !run.quizStored && (run.videoStored <==> run.lectureCommitted && video.Some? && storeOk)
    ensures run.exit.Normal? ==>
              run.lectureCommitted && (run.videoStored <==> video.Some?)
              && (run.quizStored <==> HasQuestions(quiz))
              && VideoAccepted(video) && !InnerFailure(video, quiz, storeOk, quizOk)
  {
    if claims.None? then LectureRun(OtherError, false, false, false)
    else if claims.value.role != "Instructor" then LectureRun(HttpError(403), false, false, false)
    else if !connectOk then LectureRun(OtherError, false, false, false)
    else if !instructorFound then LectureRun(HttpError(404), false, false, false)
    else if !ownsCourse then LectureRun(HttpError(403), false, false, false)
    else if !lectureInsertOk then LectureRun(HttpError(500), false, false, false)
    else
      var stored := video.Some?;
      if video.Some? && video.value.size > MaxLectureVideoBytes then LectureRun(HttpError(400), true, false, false)
      else if video.Some? && !StartsWith(video.value.contentType, VideoTypePrefix) then LectureRun(HttpError(400), true, false, false)
      else if video.Some? && !storeOk then LectureRun(HttpError(500), true, false, false)
      else if quiz.Unparsable? then LectureRun(HttpError(500), true, stored, false)
      else if HasQuestions(quiz) && !quizOk then LectureRun(HttpError(500), true, stored, false)
      else LectureRun(Normal, true, stored, HasQuestions(quiz))
  }

  /** The response of `create_lecture`: status and what was written. */
  datatype LectureReply = LectureReply(status: int, lectureCommitted: bool, videoStored: bool, quizStored: bool)

  function CreateLectureAsWritten(cookie: Option<string>, header: Option<string>, claims: Option<Claims>,
                                  connectOk: bool, instructorFound: bool, ownsCourse: bool, lectureInsertOk: bool,
                                  video: Option<VideoFile>, quiz: QuizForm, storeOk: bool, quizOk: bool): (r: LectureReply)
    ensures r.status == 200 || r.status == 401
    ensures RequestToken(cookie, header).None? ==> r == LectureReply(401, false, false, false)
  {
    if RequestToken(cookie, header).None? then LectureReply(401, false, false, false)
    else
      var run := CreateLectureBody(claims, connectOk, instructorFound, ownsCourse, lectureInsertOk, video, quiz, storeOk, quizOk);
      LectureReply(StatusAsWritten(run.exit), run.lectureCommitted, run.videoStored, run.quizStored)
  }

  /** `create_lecture` with HTTP errors passed through: 401 for a bad token or an unreachable
      database, 403 for a non-instructor or a course of someone else, 404 for an unknown instructor,
      500 for a failing lecture insert (with no lecture), 400 for a rejected video (with the lecture
      already committed), 500 for a store or quiz failure. */
  function CreateLecture(cookie: Option<string>, header: Option<string>, claims: Option<Claims>,
                         connectOk: bool, instructorFound: bool, ownsCourse: bool, lectureInsertOk: bool,
                         video: Option<VideoFile>, quiz: QuizForm, storeOk: bool, quizOk: bool): (r: LectureReply)
    ensures RequestToken(cookie, header).None? || claims.None? ==> r == LectureReply(401, false, false, false)
    ensures RequestToken(cookie, header).Some? && claims.Some? && claims.value.role == "Instructor" && !connectOk ==>
              r == LectureReply(401, false, false, false)
    ensures RequestToken(cookie, header).Some? && claims.Some? ==>
              (r.status == 403 <==> claims.value.role != "Instructor" || (connectOk && instructorFound && !ownsCourse))
              && (r.status == 404 <==> claims.value.role == "Instructor" && connectOk && !instructorFound)
    ensures r.lectureCommitted <==>
              RequestToken(cookie, header).Some? && OwnerReached(claims, connectOk, instructorFound, ownsCourse) && lectureInsertOk
    ensures r.status == 400 ==> r.lectureCommitted && !r.videoStored && !r.quizStored
    ensures r.status == 200 ==> r.lectureCommitted && (r.videoStored <==> video.Some?)
                                && VideoAccepted(video) && !InnerFailure(video, quiz, storeOk, quizOk)
    ensures RequestToken(cookie, header).Some? ==>
              (r.status == 500 <==>
                 (OwnerReached(claims, connectOk, instructorFound, ownsCourse) && !lectureInsertOk)
                 || (r.lectureCommitted && VideoAccepted(video) && InnerFailure(video, quiz, storeOk, quizOk)))
    ensures r.status == 500 && !r.lectureCommitted ==> !r.videoStored && !r.quizStored
  {
    if RequestToken(cookie, header).None? then LectureReply(401, false, false, false)
    else
      var run := CreateLectureBody(claims, connectOk, instructorFound, ownsCourse, lectureInsertOk, video, quiz, storeOk, quizOk);
      LectureReply(StatusIntended(run.exit), run.lectureCommitted, run.videoStored, run.quizStored)
  }

  /** As written, an oversized video gets 401 "Invalid authentication token or user not found" while
      the lecture it belongs to stays committed; passed through, it gets the 400 the code raised. */
  lemma OversizeVideoAnswered401(quiz: QuizForm, storeOk: bool, quizOk: bool)
    ensures var v := Some(VideoFile(MaxLectureVideoBytes + 1, "video/mp4"));
            var c := Some(Claims("teacher", "Instructor"));
            CreateLectureAsWritten(Some("t"), None, c, true, true, true, true, v, quiz, storeOk, quizOk) == LectureReply(401, true, false, false)
            && CreateLecture(Some("t"), None, c, true, true, true, true, v, quiz, storeOk, quizOk) == LectureReply(400, true, false, false)
  {
  }

  /** A failing lecture insert leaves no lecture and, passed through, is a 500; a database out of reach
      is answered 401 by both versions. */
  lemma LectureDatabaseFailures(video: Option<VideoFile>, quiz: QuizForm, storeOk: bool, quizOk: bool)
    ensures var c := Some(Claims("teacher", "Instructor"));
            CreateLecture(Some("t"), None, c, true, true, true, false, video, quiz, storeOk, quizOk) == LectureReply(500, false, false, false)
            && CreateLectureAsWritten(Some("t"), None, c, true, true, true, false, video, quiz, storeOk, quizOk) == LectureReply(401, false, false, false)
            && CreateLecture(Some("t"), None, c, false, true, true, true, video, quiz, storeOk, quizOk) == LectureReply(401, false, false, false)
            && CreateLectureAsWritten(Some("t"), None, c, false, true, true, true, video, quiz, storeOk, quizOk) == LectureReply(401, false, false, false)
  {
  }
}

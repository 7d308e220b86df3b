/**
 * The question screen's handling of an answer: the answer (with the checkboxes that
 * were ticked) is stored in the classification in progress, the "Discuss" question is
 * answered "No" without being shown when the user's preference hides it, and a
 * finished classification is handed, as a copy, to a background save. The save builds
 * one batch of provider operations: one insert per answer, one per ticked checkbox,
 * and one update that marks the item done.
 */
module QuestionFlow {
  import opened Common
  import opened UriRouter
  import opened ColumnMap
  import opened ItemsStore
  import opened Classification

  /** A question of the decision tree: the ids of its checkboxes, in display order. */
  datatype Question = Question(checkboxIds: seq<string>)

  /**
   * What the fragment asks of the decision tree (whose own implementation is not part
   * of this model): the questions by id, the question that follows each answer, and the
   * ids of the "Discuss" question and of its two answers.
   */
  datatype DecisionTree = DecisionTree(
    questions: map<string, Question>,
    next: map<(string, string), string>,
    discussQuestionId: string,
    discussYes: string,
    discussNo: string)

  // ---------------------------------------------------------------------------
  // storeAnswer()

  /** The checkbox ids of `boxes` whose button is ticked, in the question's order. */
  function Ticked(boxes: seq<string>, checked: set<string>): seq<string>
    decreases |boxes|
  {
    if boxes == [] then []
    else
      var front := Ticked(boxes[..|boxes| - 1], checked);
      if boxes[|boxes| - 1] in checked then front + [boxes[|boxes| - 1]] else front
  }

  /** The i-th element of `sub` sits at position pos[i] of `whole`, positions increasing. */
  ghost predicate Embeds(sub: seq<string>, whole: seq<string>, pos: seq<int>) {
    |pos| == |sub|
    && (forall i :: 0 <= i < |pos| ==> 0 <= pos[i] < |whole| && whole[pos[i]] == sub[i])
    && (forall i, j :: 0 <= i < j < |pos| ==> pos[i] < pos[j])
  }

  /**
   * The stored checkbox ids are exactly the question's ticked checkboxes, and they keep
   * the question's order (they are a subsequence of its checkboxes).
   */
  lemma {:induction false} TickedSpec(boxes: seq<string>, checked: set<string>)
    ensures forall x :: x in Ticked(boxes, checked) <==> x in boxes && x in checked
    ensures exists pos :: Embeds(Ticked(boxes, checked), boxes, pos)
    decreases |boxes|
  {
    if boxes != [] {
      var init := boxes[..|boxes| - 1];
      var last := boxes[|boxes| - 1];
      TickedSpec(init, checked);
      assert boxes == init + [last];
      var pos :| Embeds(Ticked(init, checked), init, pos);
      if last in checked {
        assert Embeds(Ticked(boxes, checked), boxes, pos + [|boxes| - 1]);
      } else {
        assert Embeds(Ticked(boxes, checked), boxes, pos);
      }
    } else {
      var none: seq<int> := [];
      assert Embeds(Ticked(boxes, checked), boxes, none);
    }
  }

  /** The loop of storeAnswer() over the question's checkboxes. */
  method TickedCheckboxes(question: Question, checked: set<string>) returns (ids: seq<string>)
    ensures ids == Ticked(question.checkboxIds, checked)
  {
    ids := [];
    var boxes := question.checkboxIds;
    for i := 0 to |boxes|
      invariant ids == Ticked(boxes[..i], checked)
    {
      assert boxes[..i + 1][..i] == boxes[..i];
      if boxes[i] in checked {
        ids := ids + [boxes[i]];
      }
    }
    assert boxes[..|boxes|] == boxes;
  }

  /**
   * The checkbox list storeAnswer() records: null unless the question exists and has
   * checkboxes, else the ticked ones.
   */
  function CheckboxesFor(tree: DecisionTree, questionId: string, checked: set<string>): Option<seq<string>> {
    if questionId in tree.questions && |tree.questions[questionId].checkboxIds| > 0 then
      Some(Ticked(tree.questions[questionId].checkboxIds, checked))
    else None
  }

  /** The answer storeAnswer() appends. */
  function StoredAnswer(tree: DecisionTree, questionId: string, answerId: string, checked: set<string>): QuestionAnswer {
    QuestionAnswer(questionId, answerId, CheckboxesFor(tree, questionId, checked))
  }

  // ---------------------------------------------------------------------------
  // showNextQuestion()

  /** What showNextQuestion() does after one answer. */
  datatype Step =
    | Finish              // no next question: the classification is complete
    | Show(id: string)    // show that question
    | SkipDiscuss         // answer the hidden "Discuss" question with "No" and go on

  /**
   * The step after answering: finish when the tree has no next question for the answer;
   * skip when the next question is the hidden "Discuss" one; show it otherwise.
   */
  function StepAfter(tree: DecisionTree, showDiscuss: bool, questionId: string, answerId: string): (s: Step)
    ensures s == Finish <==> (questionId, answerId) !in tree.next
    ensures s == SkipDiscuss <==>
      ((questionId, answerId) in tree.next && !showDiscuss
       && tree.discussQuestionId != "" && tree.next[(questionId, answerId)] == tree.discussQuestionId)
    ensures s.Show? ==> (questionId, answerId) in tree.next && s.id == tree.next[(questionId, answerId)]
  {
    if (questionId, answerId) !in tree.next then Finish
    else
      var nextId := tree.next[(questionId, answerId)];
      if nextId != "" && !showDiscuss && nextId == tree.discussQuestionId then SkipDiscuss
      else Show(nextId)
  }

  /** Where a run of showNextQuestion() ends. */
  datatype WalkEnd =
    | EndFinish
    | EndShow(id: string)
    | EndDiverged         // the skipped "Discuss" question leads to itself: the recursion never ends

  /** The answers a run of showNextQuestion() stores on its own, and where it ends. */
  datatype Walk = Walk(added: seq<QuestionAnswer>, end: WalkEnd)

  /** The skip recursion starts at most once more, from the "Discuss" question's "No". */
  function SkipRank(tree: DecisionTree, questionId: string, answerId: string): nat {
    if (questionId, answerId) == (tree.discussQuestionId, tree.discussNo) then 0 else 1
  }

  /**
   * showNextQuestion(questionId, answerId). The recursive call is always made with the
   * "Discuss" question and its "No"; when that call would recurse with the same pair
   * again, the Java method never returns, and the walk ends in EndDiverged.
   */
  function WalkFrom(tree: DecisionTree, showDiscuss: bool, checked: set<string>,
                    questionId: string, answerId: string): (w: Walk)
    ensures |w.added| <= 2
    ensures w.added != [] <==> StepAfter(tree, showDiscuss, questionId, answerId) == SkipDiscuss
    ensures forall i :: 0 <= i < |w.added| ==>
      w.added[i] == StoredAnswer(tree, tree.discussQuestionId, tree.discussNo, checked)
    ensures w.end == EndDiverged <==>
      (StepAfter(tree, showDiscuss, questionId, answerId) == SkipDiscuss
       && StepAfter(tree, showDiscuss, tree.discussQuestionId, tree.discussNo) == SkipDiscuss)
    decreases SkipRank(tree, questionId, answerId)
  {
    match StepAfter(tree, showDiscuss, questionId, answerId)
    case Finish => Walk([], EndFinish)
    case Show(id) => Walk([], EndShow(id))
    case SkipDiscuss =>
      var no := StoredAnswer(tree, tree.discussQuestionId, tree.discussNo, checked);
      if SkipRank(tree, questionId, answerId) == 0 then Walk([no], EndDiverged)
      else
        var rest := WalkFrom(tree, showDiscuss, checked, tree.discussQuestionId, tree.discussNo);
        Walk([no] + rest.added, rest.end)
  }

  /**
   * With the preference hiding it, the "Discuss" question is never shown (unless its id
   * is empty), and every answer the walk stores on its own is its "No".
   */
  lemma {:induction false} DiscussNeverShown(tree: DecisionTree, checked: set<string>, questionId: string, answerId: string)
    requires tree.discussQuestionId != ""
    ensures WalkFrom(tree, false, checked, questionId, answerId).end != EndShow(tree.discussQuestionId)
    ensures forall i :: 0 <= i < |WalkFrom(tree, false, checked, questionId, answerId).added| ==>
      WalkFrom(tree, false, checked, questionId, answerId).added[i].questionId == tree.discussQuestionId
      && WalkFrom(tree, false, checked, questionId, answerId).added[i].answerId == tree.discussNo
    ensures |WalkFrom(tree, false, checked, questionId, answerId).added| <= 2
    decreases SkipRank(tree, questionId, answerId)
  {
    if StepAfter(tree, false, questionId, answerId) == SkipDiscuss && SkipRank(tree, questionId, answerId) != 0 {
      DiscussNeverShown(tree, checked, tree.discussQuestionId, tree.discussNo);
    }
  }

  /** With the preference showing it, every question is shown and nothing is added. */
  lemma WalkShowsEverything(tree: DecisionTree, checked: set<string>, questionId: string, answerId: string)
    ensures WalkFrom(tree, true, checked, questionId, answerId).added == []
    ensures (questionId, answerId) in tree.next ==>
      WalkFrom(tree, true, checked, questionId, answerId).end == EndShow(tree.next[(questionId, answerId)])
    ensures (questionId, answerId) !in tree.next ==>
      WalkFrom(tree, true, checked, questionId, answerId).end == EndFinish
  {
  }

  /** What a click on an answer button leads to. */
  datatype Outcome =
    | Ignored             // the click is for a question other than the one shown
    | NextQuestion(id: string)
    | Abandoned           // finished with fewer than two answers: abandonItem()
    | Saving              // finished: a copy was handed to the save task
    | Diverged            // showNextQuestion() recurses without end

  /** The outcome of a walk that started with `count` answers stored. */
  function OutcomeOf(w: Walk, count: nat): Outcome {
    match w.end
    case EndFinish => if count + |w.added| > 1 then Saving else Abandoned
    case EndShow(id) => NextQuestion(id)
    case EndDiverged => Diverged
  }

  /**
   * A classification that is finished after an automatically answered "Discuss"
   * question is always saved: hasEnoughAnswers() relies on exactly this.
   */
  lemma SkippedDiscussIsEnough(tree: DecisionTree, checked: set<string>, questionId: string, answerId: string, count: nat)
    requires StepAfter(tree, false, questionId, answerId) == SkipDiscuss
    requires WalkFrom(tree, false, checked, questionId, answerId).end == EndFinish
    requires count >= 1
    ensures OutcomeOf(WalkFrom(tree, false, checked, questionId, answerId), count) == Saving
  {
  }

  /**
   * The question screen: the classification in progress, the question shown (None for
   * null), the tree and preference it uses, the ticked checkbox buttons, and what it has
   * handed on: the copies given to save tasks and the discussion pages opened.
   */
  class QuestionFragment {
    var classification: ClassificationInProgress
    var questionId: Option<string>
    var itemId: string
    var tree: DecisionTree
    var showDiscuss: bool
    var checked: set<string>
    var saveTasks: seq<ClassificationInProgress>
    var discussionsOpened: nat

    /** No save task shares the classification the screen goes on changing. */
    ghost predicate Valid()
      reads this
    {
      forall i :: 0 <= i < |saveTasks| ==> saveTasks[i] != classification
    }

    constructor (itemId: string, tree: DecisionTree, showDiscuss: bool, firstQuestion: string)
      ensures Valid()
      ensures classification.answers == [] && !classification.favorite
      ensures questionId == Some(firstQuestion) && this.itemId == itemId
      ensures this.tree == tree && this.showDiscuss == showDiscuss
      ensures checked == {} && saveTasks == [] && discussionsOpened == 0
    {
      classification := new ClassificationInProgress();
      questionId := Some(firstQuestion);
      this.itemId := itemId;
      this.tree := tree;
      this.showDiscuss := showDiscuss;
      checked := {};
      saveTasks := [];
      discussionsOpened := 0;
    }

    /** A tap on a checkbox's ToggleButton: the checkbox becomes ticked, or no longer ticked. */
    method ToggleCheckbox(checkboxId: string)
      requires Valid()
      modifies this
      ensures Valid()
      ensures checkboxId in checked <==> checkboxId !in old(checked)
      ensures checked - {checkboxId} == old(checked) - {checkboxId}
      ensures classification == old(classification) && questionId == old(questionId) && itemId == old(itemId)
      ensures tree == old(tree) && showDiscuss == old(showDiscuss)
      ensures saveTasks == old(saveTasks) && discussionsOpened == old(discussionsOpened)
    {
      if checkboxId in checked {
        checked := checked - {checkboxId};
      } else {
        checked := checked + {checkboxId};
      }
    }

    /** storeAnswer(): append the answer with the ticked checkboxes. */
    method StoreAnswer(q: string, a: string)
      modifies classification
      ensures classification.answers == old(classification.answers) + [StoredAnswer(tree, q, a, checked)]
      ensures classification.favorite == old(classification.favorite)
    {
      var boxes: Option<seq<string>> := None;
      if q in tree.questions && |tree.questions[q].checkboxIds| > 0 {
        var ids := TickedCheckboxes(tree.questions[q], checked);
        boxes := Some(ids);
      }
      classification.Add(q, a, boxes);
    }

    /**
     * showNextQuestion(): show the next question, skip the hidden "Discuss" question by
     * storing its "No", or, when the tree ends, abandon a classification with too few
     * answers or hand a copy of it to a new save task.
     */
    method ShowNextQuestion(q: string, a: string) returns (outcome: Outcome)
      requires Valid()
      modifies this, classification
      ensures Valid()
      ensures classification == old(classification) && tree == old(tree) && showDiscuss == old(showDiscuss)
      ensures checked == old(checked) && itemId == old(itemId) && discussionsOpened == old(discussionsOpened)
      ensures classification.favorite == old(classification.favorite)
      ensures var w := WalkFrom(tree, showDiscuss, checked, q, a);
        classification.answers == old(classification.answers) + w.added
        && outcome == OutcomeOf(w, |old(classification.answers)|)
      ensures outcome.NextQuestion? ==> questionId == Some(outcome.id)
      ensures !outcome.NextQuestion? ==> questionId == old(questionId)
      ensures outcome == Saving ==>
        |saveTasks| == |old(saveTasks)| + 1 && saveTasks[..|old(saveTasks)|] == old(saveTasks)
        && fresh(saveTasks[|old(saveTasks)|]) && saveTasks[|old(saveTasks)|].Value() == classification.Value()
      ensures outcome != Saving ==> saveTasks == old(saveTasks)
      decreases SkipRank(tree, q, a)
    {
      var step := StepAfter(tree, showDiscuss, q, a);
      if step.Finish? {
        if !classification.HasEnoughAnswers() {
          outcome := Abandoned;
        } else {
          var copy := new ClassificationInProgress.Copy(classification);
          saveTasks := saveTasks + [copy];
          outcome := Saving;
        }
      } else if step.Show? {
        questionId := Some(step.id);
        outcome := NextQuestion(step.id);
      } else {
        StoreAnswer(tree.discussQuestionId, tree.discussNo);
        if SkipRank(tree, q, a) == 0 {
          outcome := Diverged;
        } else {
          outcome := ShowNextQuestion(tree.discussQuestionId, tree.discussNo);
        }
      }
    }

    /**
     * onAnswerButtonClicked(): a click for a question other than the one shown is
     * ignored; otherwise the answer is stored, the discussion page is opened for the
     * "Discuss" question's "Yes", and the next question is shown.
     */
    method OnAnswerButtonClicked(q: string, a: string) returns (outcome: Outcome)
      requires Valid()
      modifies this, classification
      ensures Valid()
      ensures classification == old(classification) && tree == old(tree) && itemId == old(itemId)
      ensures classification.favorite == old(classification.favorite)
      ensures old(questionId) != Some(q) <==> outcome == Ignored
      ensures old(questionId) != Some(q) ==>
        classification.answers == old(classification.answers) && saveTasks == old(saveTasks)
        && questionId == old(questionId) && discussionsOpened == old(discussionsOpened)
      ensures old(questionId) == Some(q) ==>
        var w := WalkFrom(tree, showDiscuss, checked, q, a);
        classification.answers == old(classification.answers) + [StoredAnswer(tree, q, a, checked)] + w.added
        && outcome == OutcomeOf(w, |old(classification.answers)| + 1)
        && discussionsOpened == old(discussionsOpened) + (if q == tree.discussQuestionId && a == tree.discussYes then 1 else 0)
      ensures outcome == Saving ==>
        |saveTasks| == |old(saveTasks)| + 1 && saveTasks[..|old(saveTasks)|] == old(saveTasks)
        && fresh(saveTasks[|old(saveTasks)|]) && saveTasks[|old(saveTasks)|].Value() == classification.Value()
      ensures outcome != Saving ==> saveTasks == old(saveTasks)
      ensures outcome.NextQuestion? ==> questionId == Some(outcome.id)
      ensures !outcome.NextQuestion? ==> questionId == old(questionId)
      ensures showDiscuss == old(showDiscuss) && checked == old(checked)
    {
      if questionId != Some(q) {
        outcome := Ignored;
        return;
      }
      StoreAnswer(q, a);
      if q == tree.discussQuestionId && a == tree.discussYes {
        discussionsOpened := discussionsOpened + 1;
      }
      outcome := ShowNextQuestion(q, a);
    }

    /** wipeClassification(): start a new, empty classification with no question shown. */
    method WipeClassification()
      requires Valid()
      modifies this
      ensures Valid()
      ensures fresh(classification) && classification.answers == [] && !classification.favorite
      ensures questionId == None
      ensures saveTasks == old(saveTasks) && itemId == old(itemId) && tree == old(tree)
      ensures showDiscuss == old(showDiscuss) && checked == old(checked) && discussionsOpened == old(discussionsOpened)
    {
      classification := new ClassificationInProgress();
      questionId := None;
    }

    /**
     * saveClassificationSync(): nothing for the virtual "next" item; otherwise build the
     * batch and apply it. A failed batch makes the method throw.
     */
    method SaveClassificationSync(c: ClassificationInProgress, provider: ItemsContentProvider,
                                  now: string, cache: nat -> CacheFile)
      returns (r: Result<()>)
      requires provider.Valid()
      modifies provider
      ensures provider.Valid()
      ensures itemId == PartItemIdNext ==> r.Ok? && provider.State() == old(provider.State())
      ensures (IsDigits(itemId) || itemId == "") && MarkDoneColumns <= old(provider.itemColumns) ==>
        r.Ok? && provider.State() == SavedState(old(provider.State()), itemId, c.Value(), now)
    {
      if itemId == PartItemIdNext {
        r := Ok(());
        return;
      }
      ghost var before := provider.State();
      ghost var answers := c.Value();
      ghost var saving := (IsDigits(itemId) || itemId == "") && MarkDoneColumns <= before.itemColumns;
      var ops := BuildOps(itemId, c, now);
      if saving {
        BatchEffect(before, itemId, answers, now);
      }
      var applied;
      applied, r := ApplyBatch(provider, ops, cache);
    }
  }

  // ---------------------------------------------------------------------------
  // The batch of saveClassificationSync()

  /** A ContentProviderOperation: an insert or an update of a content URI's path. */
  datatype Op = NewInsert(path: seq<string>, values: Row) | NewUpdate(path: seq<string>, values: Row)

  const AnswersPath := [PartClassificationAnswer]
  const CheckboxesPath := [PartClassificationCheckbox]

  function AnswerValues(itemId: string, sequence: nat, qa: QuestionAnswer): Row {
    map[ItemId := StrV(itemId), Sequence := IntV(sequence),
        QuestionId := StrV(qa.questionId), AnswerId := StrV(qa.answerId)]
  }

  function CheckboxValues(itemId: string, sequence: nat, qa: QuestionAnswer, checkboxId: string): Row {
    map[ItemId := StrV(itemId), Sequence := IntV(sequence),
        QuestionId := StrV(qa.questionId), CheckboxId := StrV(checkboxId)]
  }

  /** The columns the final update writes. */
  const MarkDoneColumns: set<string> := {Done, DateTimeDone, Favorite}

  function MarkDoneValues(now: string, favorite: bool): Row {
    map[Done := BoolV(true), DateTimeDone := StrV(now), Favorite := BoolV(favorite)]
  }

  /**
   * The path of ITEMS_URI with the item id appended. Uri.Builder.appendPath("") only adds
   * a trailing slash, and the path segments leave out the empty one, so an empty id
   * gives the items collection URI.
   */
  function MarkDonePath(itemId: string): (path: seq<string>)
    ensures itemId != "" ==> path == [PartItem, itemId]
    ensures itemId == "" ==> Match(path) == Some(Items)
  {
    if itemId == "" then [PartItem] else [PartItem, itemId]
  }

  /** The checkbox inserts of one answer. */
  function CheckboxOps(itemId: string, sequence: nat, qa: QuestionAnswer, ids: seq<string>): seq<Op>
    decreases |ids|
  {
    if ids == [] then []
    else CheckboxOps(itemId, sequence, qa, ids[..|ids| - 1])
         + [NewInsert(CheckboxesPath, CheckboxValues(itemId, sequence, qa, ids[|ids| - 1]))]
  }

  /** The inserts of one answer: the answer row, then one row per ticked checkbox. */
  function AnswerOps(itemId: string, sequence: nat, qa: QuestionAnswer): seq<Op> {
    [NewInsert(AnswersPath, AnswerValues(itemId, sequence, qa))]
    + (if qa.checkboxIds.Some? then CheckboxOps(itemId, sequence, qa, qa.checkboxIds.value) else [])
  }

  /** The inserts of all answers, numbered in order from 0. */
  function AnswersOps(itemId: string, answers: seq<QuestionAnswer>): seq<Op>
    decreases |answers|
  {
    if answers == [] then []
    else AnswersOps(itemId, answers[..|answers| - 1])
         + AnswerOps(itemId, |answers| - 1, answers[|answers| - 1])
  }

  /** The whole batch: the inserts, then the update that marks the item done. */
  function BatchOps(itemId: string, c: Answers, now: string): seq<Op> {
    AnswersOps(itemId, c.answers) + [NewUpdate(MarkDonePath(itemId), MarkDoneValues(now, c.favorite))]
  }

  /** The op-list construction of saveClassificationSync(). */
  method BuildOps(itemId: string, c: ClassificationInProgress, now: string) returns (ops: seq<Op>)
    ensures ops == BatchOps(itemId, c.Value(), now)
  {
    ops := [];
    var answers := c.GetAnswers();
    for sequence := 0 to |answers|
      invariant ops == AnswersOps(itemId, answers[..sequence])
    {
      var answer := answers[sequence];
      var before := ops;
      ops := ops + [NewInsert(AnswersPath, AnswerValues(itemId, sequence, answer))];
      if answer.checkboxIds.Some? {
        var ids := answer.checkboxIds.value;
        for j := 0 to |ids|
          invariant ops == before + [NewInsert(AnswersPath, AnswerValues(itemId, sequence, answer))]
                           + CheckboxOps(itemId, sequence, answer, ids[..j])
        {
          assert ids[..j + 1][..j] == ids[..j];
          ops := ops + [NewInsert(CheckboxesPath, CheckboxValues(itemId, sequence, answer, ids[j]))];
        }
        assert ids[..|ids|] == ids;
      }
      assert answers[..sequence + 1][..sequence] == answers[..sequence];
    }
    assert answers[..|answers|] == answers;
    ops := ops + [NewUpdate(MarkDonePath(itemId), MarkDoneValues(now, c.favorite))];
  }

  /** The number of ticked checkboxes over all answers. */
  function CheckboxCount(answers: seq<QuestionAnswer>): nat
    decreases |answers|
  {
    if answers == [] then 0
    else
      var qa := answers[|answers| - 1];
      CheckboxCount(answers[..|answers| - 1]) + (if qa.checkboxIds.Some? then |qa.checkboxIds.value| else 0)
  }

  lemma {:induction false} CheckboxOpsSpec(itemId: string, sequence: nat, qa: QuestionAnswer, ids: seq<string>)
    ensures |CheckboxOps(itemId, sequence, qa, ids)| == |ids|
    ensures forall i :: 0 <= i < |ids| ==>
      CheckboxOps(itemId, sequence, qa, ids)[i] == NewInsert(CheckboxesPath, CheckboxValues(itemId, sequence, qa, ids[i]))
    decreases |ids|
  {
    if ids != [] {
      CheckboxOpsSpec(itemId, sequence, qa, ids[..|ids| - 1]);
    }
  }

  /**
   * An insert into the answers or the checkboxes whose values the table's translation
   * keeps as they are.
   */
  ghost predicate StoredInsert(op: Op) {
    op.NewInsert?
    && ((op.path == AnswersPath && Mapped(op.values, ProjectionFor(AnswersTable)) == op.values)
        || (op.path == CheckboxesPath && Mapped(op.values, ProjectionFor(CheckboxesTable)) == op.values))
  }

  /** Every op before the last is such an insert. */
  ghost predicate InsertsOnly(ops: seq<Op>) {
    forall i :: 0 <= i < |ops| ==> StoredInsert(ops[i])
  }

  /** An answer's values name only answers columns, so they are stored as they are. */
  lemma AnswerValuesKept(itemId: string, sequence: nat, qa: QuestionAnswer)
    ensures Mapped(AnswerValues(itemId, sequence, qa), ProjectionFor(AnswersTable)) == AnswerValues(itemId, sequence, qa)
  {
    var values := AnswerValues(itemId, sequence, qa);
    assert ProjectionFor(AnswersTable) == IdentityMap(AnswersColumnNames);
    assert values.Keys == {ItemId, Sequence, QuestionId, AnswerId};
    assert forall k :: k in values ==> Storable(values[k]);
    MappedIdentity(values, AnswersColumnNames);
  }

  /** A checkbox's values name only checkboxes columns, so they are stored as they are. */
  lemma CheckboxValuesKept(itemId: string, sequence: nat, qa: QuestionAnswer, checkboxId: string)
    ensures Mapped(CheckboxValues(itemId, sequence, qa, checkboxId), ProjectionFor(CheckboxesTable))
            == CheckboxValues(itemId, sequence, qa, checkboxId)
  {
    var values := CheckboxValues(itemId, sequence, qa, checkboxId);
    assert ProjectionFor(CheckboxesTable) == IdentityMap(CheckboxesColumnNames);
    assert values.Keys == {ItemId, Sequence, QuestionId, CheckboxId};
    assert forall k :: k in values ==> Storable(values[k]);
    MappedIdentity(values, CheckboxesColumnNames);
  }

  /** The values of the batch's inserts into `path`, in order. */
  function InsertedRows(ops: seq<Op>, path: seq<string>): seq<Row>
    decreases |ops|
  {
    if ops == [] then []
    else
      var last := ops[|ops| - 1];
      InsertedRows(ops[..|ops| - 1], path) + (if last.NewInsert? && last.path == path then [last.values] else [])
  }

  lemma {:induction false} InsertedRowsAppend(a: seq<Op>, b: seq<Op>, path: seq<string>)
    ensures InsertedRows(a + b, path) == InsertedRows(a, path) + InsertedRows(b, path)
    decreases |b|
  {
    if b == [] {
      assert a + b == a;
    } else {
      assert (a + b)[..|a + b| - 1] == a + b[..|b| - 1];
      InsertedRowsAppend(a, b[..|b| - 1], path);
    }
  }

  /** Ops that all insert into `path` insert their own values, one row each, in order. */
  lemma {:induction false} InsertedRowsAll(ops: seq<Op>, path: seq<string>)
    requires forall i :: 0 <= i < |ops| ==> ops[i].NewInsert? && ops[i].path == path
    ensures |InsertedRows(ops, path)| == |ops|
    ensures forall i :: 0 <= i < |ops| ==> InsertedRows(ops, path)[i] == ops[i].values
    decreases |ops|
  {
    if ops != [] {
      var n := |ops| - 1;
      InsertedRowsAll(ops[..n], path);
      var rows := InsertedRows(ops, path);
      assert rows == InsertedRows(ops[..n], path) + [ops[n].values];
      forall i | 0 <= i < n
        ensures rows[i] == ops[i].values
      {
        assert ops[..n][i] == ops[i];
      }
    }
  }

  lemma {:induction false} CheckboxOpsHaveNoAnswerRows(itemId: string, sequence: nat, qa: QuestionAnswer, ids: seq<string>)
    ensures InsertedRows(CheckboxOps(itemId, sequence, qa, ids), AnswersPath) == []
    decreases |ids|
  {
    if ids != [] {
      var init := CheckboxOps(itemId, sequence, qa, ids[..|ids| - 1]);
      var last := [NewInsert(CheckboxesPath, CheckboxValues(itemId, sequence, qa, ids[|ids| - 1]))];
      CheckboxOpsHaveNoAnswerRows(itemId, sequence, qa, ids[..|ids| - 1]);
      InsertedRowsAppend(init, last, AnswersPath);
      assert InsertedRows(last, AnswersPath) == [] by {
        assert last[..0] == [];
        assert AnswersPath != CheckboxesPath;
      }
    }
  }

  /** One answer's ops: its own row first, then its checkboxes. */
  lemma AnswerOpsSpec(itemId: string, sequence: nat, qa: QuestionAnswer)
    ensures |AnswerOps(itemId, sequence, qa)| == 1 + (if qa.checkboxIds.Some? then |qa.checkboxIds.value| else 0)
    ensures InsertsOnly(AnswerOps(itemId, sequence, qa))
    ensures InsertedRows(AnswerOps(itemId, sequence, qa), AnswersPath) == [AnswerValues(itemId, sequence, qa)]
  {
    AnswerOpsInserts(itemId, sequence, qa);
    AnswerOpsRow(itemId, sequence, qa);
  }

  lemma AnswerOpsInserts(itemId: string, sequence: nat, qa: QuestionAnswer)
    ensures |AnswerOps(itemId, sequence, qa)| == 1 + (if qa.checkboxIds.Some? then |qa.checkboxIds.value| else 0)
    ensures InsertsOnly(AnswerOps(itemId, sequence, qa))
  {
    var ops := AnswerOps(itemId, sequence, qa);
    var boxes := if qa.checkboxIds.Some? then CheckboxOps(itemId, sequence, qa, qa.checkboxIds.value) else [];
    AnswerValuesKept(itemId, sequence, qa);
    if qa.checkboxIds.Some? {
      var ids := qa.checkboxIds.value;
      CheckboxOpsSpec(itemId, sequence, qa, ids);
      forall j | 0 <= j < |ids|
        ensures StoredInsert(boxes[j])
      {
        CheckboxValuesKept(itemId, sequence, qa, ids[j]);
      }
    }
    forall i | 0 <= i < |ops|
      ensures StoredInsert(ops[i])
    {
      if i > 0 {
        assert ops[i] == boxes[i - 1];
      }
    }
  }

  lemma AnswerOpsRow(itemId: string, sequence: nat, qa: QuestionAnswer)
    ensures InsertedRows(AnswerOps(itemId, sequence, qa), AnswersPath) == [AnswerValues(itemId, sequence, qa)]
  {
    var head := [NewInsert(AnswersPath, AnswerValues(itemId, sequence, qa))];
    var boxes := if qa.checkboxIds.Some? then CheckboxOps(itemId, sequence, qa, qa.checkboxIds.value) else [];
    if qa.checkboxIds.Some? {
      CheckboxOpsHaveNoAnswerRows(itemId, sequence, qa, qa.checkboxIds.value);
    }
    InsertedRowsAppend(head, boxes, AnswersPath);
    assert InsertedRows(head, AnswersPath) == [AnswerValues(itemId, sequence, qa)] by {
      assert head[..0] == [];
    }
  }

  /** The batch's inserts: one per answer and one per ticked checkbox, nothing else. */
  lemma {:induction false} AnswersOpsShape(itemId: string, answers: seq<QuestionAnswer>)
    ensures |AnswersOps(itemId, answers)| == |answers| + CheckboxCount(answers)
    ensures InsertsOnly(AnswersOps(itemId, answers))
    decreases |answers|
  {
    if answers != [] {
      var n := |answers| - 1;
      AnswersOpsShape(itemId, answers[..n]);
      AnswerOpsInserts(itemId, n, answers[n]);
      var front := AnswersOps(itemId, answers[..n]);
      var last := AnswerOps(itemId, n, answers[n]);
      var ops := AnswersOps(itemId, answers);
      assert ops == front + last;
      forall i | 0 <= i < |ops|
        ensures StoredInsert(ops[i])
      {
        if i < |front| {
          assert ops[i] == front[i];
        } else {
          assert ops[i] == last[i - |front|];
        }
      }
    }
  }

  /**
   * The answer inserts of the batch carry the answers in their order, numbered 0, 1, ...
   * with the item's id.
   */
  lemma {:induction false} AnswersOpsRows(itemId: string, answers: seq<QuestionAnswer>)
    ensures |InsertedRows(AnswersOps(itemId, answers), AnswersPath)| == |answers|
    ensures forall i :: 0 <= i < |answers| ==>
      InsertedRows(AnswersOps(itemId, answers), AnswersPath)[i] == AnswerValues(itemId, i, answers[i])
    decreases |answers|
  {
    if answers != [] {
      var n := |answers| - 1;
      var init := answers[..n];
      var front := InsertedRows(AnswersOps(itemId, init), AnswersPath);
      AnswersOpsRows(itemId, init);
      AnswerOpsRow(itemId, n, answers[n]);
      assert AnswersOps(itemId, answers) == AnswersOps(itemId, init) + AnswerOps(itemId, n, answers[n]);
      InsertedRowsAppend(AnswersOps(itemId, init), AnswerOps(itemId, n, answers[n]), AnswersPath);
      var rows := front + [AnswerValues(itemId, n, answers[n])];
      assert InsertedRows(AnswersOps(itemId, answers), AnswersPath) == rows;
      forall i | 0 <= i < |answers|
        ensures rows[i] == AnswerValues(itemId, i, answers[i])
      {
        if i < n {
          assert init[i] == answers[i];
        }
      }
    }
  }

  /** The answer rows a saved classification should leave: answer i numbered i, with the item id. */
  function AnswerRowsOf(itemId: string, answers: seq<QuestionAnswer>): seq<Row> {
    seq(|answers|, i requires 0 <= i < |answers| => AnswerValues(itemId, i, answers[i]))
  }

  /** The checkbox rows of one answer: one per ticked checkbox, with the answer's number. */
  function BoxRows(itemId: string, sequence: nat, qa: QuestionAnswer): seq<Row> {
    if qa.checkboxIds.None? then []
    else
      var ids := qa.checkboxIds.value;
      seq(|ids|, j requires 0 <= j < |ids| => CheckboxValues(itemId, sequence, qa, ids[j]))
  }

  /** The checkbox rows of all answers, answer by answer. */
  function CheckboxRowsOf(itemId: string, answers: seq<QuestionAnswer>): seq<Row>
    decreases |answers|
  {
    if answers == [] then []
    else CheckboxRowsOf(itemId, answers[..|answers| - 1]) + BoxRows(itemId, |answers| - 1, answers[|answers| - 1])
  }

  /** There is one checkbox row per ticked checkbox. */
  lemma {:induction false} CheckboxRowsCount(itemId: string, answers: seq<QuestionAnswer>)
    ensures |CheckboxRowsOf(itemId, answers)| == CheckboxCount(answers)
    decreases |answers|
  {
    if answers != [] {
      CheckboxRowsCount(itemId, answers[..|answers| - 1]);
    }
  }

  /** The answer inserts of the batch are exactly the expected answer rows. */
  lemma AnswersOpsAnswerRows(itemId: string, answers: seq<QuestionAnswer>)
    ensures InsertedRows(AnswersOps(itemId, answers), AnswersPath) == AnswerRowsOf(itemId, answers)
  {
    AnswersOpsRows(itemId, answers);
  }

  /** One answer's checkbox inserts are exactly its checkbox rows. */
  lemma AnswerOpsBoxRows(itemId: string, sequence: nat, qa: QuestionAnswer)
    ensures InsertedRows(AnswerOps(itemId, sequence, qa), CheckboxesPath) == BoxRows(itemId, sequence, qa)
  {
    var head := [NewInsert(AnswersPath, AnswerValues(itemId, sequence, qa))];
    var boxes := if qa.checkboxIds.Some? then CheckboxOps(itemId, sequence, qa, qa.checkboxIds.value) else [];
    InsertedRowsAppend(head, boxes, CheckboxesPath);
    assert InsertedRows(head, CheckboxesPath) == [] by {
      assert head[..0] == [];
      assert AnswersPath != CheckboxesPath;
    }
    if qa.checkboxIds.Some? {
      var ids := qa.checkboxIds.value;
      CheckboxOpsSpec(itemId, sequence, qa, ids);
      InsertedRowsAll(boxes, CheckboxesPath);
    }
  }

  /** The checkbox inserts of the batch are exactly the expected checkbox rows, in order. */
  lemma {:induction false} AnswersOpsBoxRows(itemId: string, answers: seq<QuestionAnswer>)
    ensures InsertedRows(AnswersOps(itemId, answers), CheckboxesPath) == CheckboxRowsOf(itemId, answers)
    decreases |answers|
  {
    if answers != [] {
      var n := |answers| - 1;
      AnswersOpsBoxRows(itemId, answers[..n]);
      AnswerOpsBoxRows(itemId, n, answers[n]);
      InsertedRowsAppend(AnswersOps(itemId, answers[..n]), AnswerOps(itemId, n, answers[n]), CheckboxesPath);
    }
  }

  /** The whole batch: its size, and its last op, which marks the item done. */
  lemma BatchOpsSpec(itemId: string, c: Answers, now: string)
    ensures var ops := BatchOps(itemId, c, now);
      |ops| == |c.answers| + CheckboxCount(c.answers) + 1
      && InsertsOnly(ops[..|ops| - 1])
      && ops[|ops| - 1] == NewUpdate(MarkDonePath(itemId), MarkDoneValues(now, c.favorite))
  {
    var ops := BatchOps(itemId, c, now);
    AnswersOpsShape(itemId, c.answers);
    assert ops[..|ops| - 1] == AnswersOps(itemId, c.answers);
  }

  // ---------------------------------------------------------------------------
  // applyBatch()

  /** An op the provider carries out without an error. */
  ghost predicate SafeOp(op: Op, itemColumns: set<string>) {
    match op
    case NewInsert(path, values) =>
      InsertRoute(Match(path)) == Ok(AnswersTable) || InsertRoute(Match(path)) == Ok(CheckboxesTable)
    case NewUpdate(path, values) =>
      WriteRoute(Match(path)).Ok?
      && var t := WriteRoute(Match(path)).value.table;
      var mapped := Mapped(values, ProjectionFor(t));
      mapped != map[] && (t == ItemsTable ==> mapped.Keys <= itemColumns)
  }

  /** The mark-done values pass the items translation unchanged. */
  lemma MarkDoneMapped(now: string, favorite: bool)
    ensures Mapped(MarkDoneValues(now, favorite), ProjectionFor(ItemsTable)) == MarkDoneValues(now, favorite)
  {
    var values := MarkDoneValues(now, favorite);
    assert values.Keys == MarkDoneColumns;
    assert MarkDoneColumns <= ItemsColumnNames;
    MappedIdentity(values, ItemsColumnNames);
  }

  /**
   * Marking a real item done (or, with an empty id, every item) writes only columns the
   * items table has.
   */
  lemma MarkDoneIsSafe(itemId: string, now: string, favorite: bool, itemColumns: set<string>)
    requires (IsDigits(itemId) || itemId == "") && MarkDoneColumns <= itemColumns
    ensures SafeOp(NewUpdate(MarkDonePath(itemId), MarkDoneValues(now, favorite)), itemColumns)
  {
    if itemId != "" {
      MatchItemPaths(itemId);
    }
    MarkDoneMapped(now, favorite);
    assert Done in MarkDoneValues(now, favorite);
  }

  /** Every op of the list is safe. */
  ghost predicate AllSafe(ops: seq<Op>, itemColumns: set<string>)
    decreases |ops|
  {
    ops == [] || (AllSafe(ops[..|ops| - 1], itemColumns) && SafeOp(ops[|ops| - 1], itemColumns))
  }

  /** The ops of a safe list, and the lists that lead it, are safe. */
  lemma {:induction false} AllSafeAt(ops: seq<Op>, n: nat, itemColumns: set<string>)
    requires AllSafe(ops, itemColumns) && n <= |ops|
    ensures AllSafe(ops[..n], itemColumns)
    ensures n < |ops| ==> SafeOp(ops[n], itemColumns)
    decreases |ops|
  {
    if n < |ops| {
      var front := ops[..|ops| - 1];
      AllSafeAt(front, n, itemColumns);
      if n < |front| {
        assert front[..n] == ops[..n] && front[n] == ops[n];
      } else {
        assert front == ops[..n];
      }
    } else {
      assert ops[..n] == ops;
    }
  }

  /**
   * What a safe op does to the provider: Insert and Update with no selection, as their
   * contracts state.
   */
  ghost function ApplyOp(s: Store, op: Op): (r: Store)
    requires SafeOp(op, s.itemColumns)
    ensures r.itemColumns == s.itemColumns
  {
    match op
    case NewInsert(path, values) =>
      var t := InsertRoute(Match(path)).value;
      WithRow(s, t, Mapped(values, ProjectionFor(t)))
    case NewUpdate(path, values) =>
      var target := WriteRoute(Match(path)).value;
      var t := target.table;
      var ids := if target.RowById? then Matching(TableRows(s, t), NoSelection) * {ParseNat(path[1])}
                 else Matching(TableRows(s, t), NoSelection);
      WithUpdate(s, t, ids, Mapped(values, ProjectionFor(t)))
  }

  /** Safe ops applied one after the other. */
  ghost function ApplyOps(s: Store, ops: seq<Op>): (r: Store)
    requires AllSafe(ops, s.itemColumns)
    ensures r.itemColumns == s.itemColumns
    decreases |ops|
  {
    if ops == [] then s
    else ApplyOp(ApplyOps(s, ops[..|ops| - 1]), ops[|ops| - 1])
  }

  /** The store with `answerRows` and `boxRows` appended to the answers and the checkboxes. */
  function WithInserted(s: Store, answerRows: seq<Row>, boxRows: seq<Row>): Store {
    s.(answers := Appended(s.answers, s.nextAnswerId, answerRows),
       nextAnswerId := s.nextAnswerId + |answerRows|,
       checkboxes := Appended(s.checkboxes, s.nextCheckboxId, boxRows),
       nextCheckboxId := s.nextCheckboxId + |boxRows|)
  }

  /** One more answer row goes under the next answers id. */
  lemma WithInsertedAnswer(s: Store, answerRows: seq<Row>, boxRows: seq<Row>, row: Row)
    ensures var m := WithInserted(s, answerRows, boxRows);
      WithInserted(s, answerRows + [row], boxRows)
      == m.(answers := m.answers[m.nextAnswerId := row], nextAnswerId := m.nextAnswerId + 1)
  {
    AppendedSnoc(s.answers, s.nextAnswerId, answerRows, row);
  }

  /** One more checkbox row goes under the next checkboxes id. */
  lemma WithInsertedCheckbox(s: Store, answerRows: seq<Row>, boxRows: seq<Row>, row: Row)
    ensures var m := WithInserted(s, answerRows, boxRows);
      WithInserted(s, answerRows, boxRows + [row])
      == m.(checkboxes := m.checkboxes[m.nextCheckboxId := row], nextCheckboxId := m.nextCheckboxId + 1)
  {
    AppendedSnoc(s.checkboxes, s.nextCheckboxId, boxRows, row);
  }

  /** One insert of the batch puts its values under its table's next id. */
  lemma InsertStep(m: Store, op: Op)
    requires StoredInsert(op)
    ensures SafeOp(op, m.itemColumns)
    ensures op.path == AnswersPath ==>
      ApplyOp(m, op) == m.(answers := m.answers[m.nextAnswerId := op.values], nextAnswerId := m.nextAnswerId + 1)
    ensures op.path != AnswersPath ==>
      ApplyOp(m, op) == m.(checkboxes := m.checkboxes[m.nextCheckboxId := op.values], nextCheckboxId := m.nextCheckboxId + 1)
  {
    assert Match(AnswersPath) == Some(ClassificationAnswers);
    assert Match(CheckboxesPath) == Some(ClassificationCheckboxes);
  }

  /**
   * Inserts into the answers and the checkboxes append their values to those tables under
   * the tables' next ids, in order, and touch nothing else.
   */
  lemma {:induction false} ApplyInserts(s: Store, ops: seq<Op>)
    requires InsertsOnly(ops)
    ensures AllSafe(ops, s.itemColumns)
      && ApplyOps(s, ops) == WithInserted(s, InsertedRows(ops, AnswersPath), InsertedRows(ops, CheckboxesPath))
    decreases |ops|
  {
    if ops != [] {
      var n := |ops| - 1;
      var front := ops[..n];
      forall i | 0 <= i < n
        ensures StoredInsert(front[i])
      {
        assert front[i] == ops[i];
      }
      ApplyInserts(s, front);
      var op := ops[n];
      assert ApplyOps(s, ops) == ApplyOp(ApplyOps(s, front), op);
      var answerRows := InsertedRows(front, AnswersPath);
      var boxRows := InsertedRows(front, CheckboxesPath);
      InsertStep(WithInserted(s, answerRows, boxRows), op);
      if op.path == AnswersPath {
        assert InsertedRows(ops, AnswersPath) == answerRows + [op.values];
        assert InsertedRows(ops, CheckboxesPath) == boxRows;
        WithInsertedAnswer(s, answerRows, boxRows, op.values);
      } else {
        assert InsertedRows(ops, AnswersPath) == answerRows;
        assert InsertedRows(ops, CheckboxesPath) == boxRows + [op.values];
        WithInsertedCheckbox(s, answerRows, boxRows, op.values);
      }
    }
  }

  /** The items the mark-done update writes: the item with that id, or all of them for an empty id. */
  function MarkedIds(items: Rows, itemId: string): set<nat>
    requires IsDigits(itemId) || itemId == ""
  {
    if itemId == "" then items.Keys else items.Keys * {ParseNat(itemId)}
  }

  /** The marked items rewritten with the mark-done values, and one sync requested. */
  function MarkedDone(s: Store, itemId: string, now: string, favorite: bool): Store
    requires IsDigits(itemId) || itemId == ""
  {
    s.(items := UpdatedRows(s.items, MarkedIds(s.items, itemId), MarkDoneValues(now, favorite)),
       syncRequests := s.syncRequests + 1)
  }

  /**
   * What a saved classification leaves in the provider: its answer rows and checkbox rows
   * appended under fresh ids, the item marked done with the time and the favorite flag,
   * and one sync requested.
   */
  function SavedState(s: Store, itemId: string, c: Answers, now: string): Store
    requires IsDigits(itemId) || itemId == ""
  {
    MarkedDone(WithInserted(s, AnswerRowsOf(itemId, c.answers), CheckboxRowsOf(itemId, c.answers)),
               itemId, now, c.favorite)
  }

  /** The mark-done update rewrites the marked items and requests a sync. */
  lemma MarkDoneStep(m: Store, itemId: string, now: string, favorite: bool)
    requires (IsDigits(itemId) || itemId == "") && MarkDoneColumns <= m.itemColumns
    ensures SafeOp(NewUpdate(MarkDonePath(itemId), MarkDoneValues(now, favorite)), m.itemColumns)
    ensures ApplyOp(m, NewUpdate(MarkDonePath(itemId), MarkDoneValues(now, favorite)))
            == MarkedDone(m, itemId, now, favorite)
  {
    var op := NewUpdate(MarkDonePath(itemId), MarkDoneValues(now, favorite));
    var values := MarkDoneValues(now, favorite);
    MarkDoneIsSafe(itemId, now, favorite, m.itemColumns);
    MarkDoneMapped(now, favorite);
    MatchingAll(m.items);
    if itemId == "" {
      assert WriteRoute(Match(op.path)) == Ok(AllRows(ItemsTable));
      assert ApplyOp(m, op) == WithUpdate(m, ItemsTable, m.items.Keys, values);
    } else {
      MatchItemPaths(itemId);
      assert WriteRoute(Match(op.path)) == Ok(RowById(ItemsTable));
      assert ApplyOp(m, op) == WithUpdate(m, ItemsTable, m.items.Keys * {ParseNat(itemId)}, values);
    }
  }

  /** Applying the whole batch of a real item gives the saved state. */
  lemma BatchEffect(s: Store, itemId: string, c: Answers, now: string)
    requires (IsDigits(itemId) || itemId == "") && MarkDoneColumns <= s.itemColumns
    ensures AllSafe(BatchOps(itemId, c, now), s.itemColumns)
      && ApplyOps(s, BatchOps(itemId, c, now)) == SavedState(s, itemId, c, now)
  {
    var inserts := AnswersOps(itemId, c.answers);
    var update := NewUpdate(MarkDonePath(itemId), MarkDoneValues(now, c.favorite));
    assert BatchOps(itemId, c, now) == inserts + [update];
    AnswersEffect(s, itemId, c.answers);
    var mid := WithInserted(s, AnswerRowsOf(itemId, c.answers), CheckboxRowsOf(itemId, c.answers));
    MarkDoneStep(mid, itemId, now, c.favorite);
    ApplyOpsSnoc(s, inserts, update);
  }

  /** The inserts of the batch append the answer rows and the checkbox rows. */
  lemma AnswersEffect(s: Store, itemId: string, answers: seq<QuestionAnswer>)
    ensures AllSafe(AnswersOps(itemId, answers), s.itemColumns)
      && ApplyOps(s, AnswersOps(itemId, answers))
         == WithInserted(s, AnswerRowsOf(itemId, answers), CheckboxRowsOf(itemId, answers))
  {
    var inserts := AnswersOps(itemId, answers);
    AnswersOpsShape(itemId, answers);
    ApplyInserts(s, inserts);
    AnswersOpsAnswerRows(itemId, answers);
    AnswersOpsBoxRows(itemId, answers);
  }

  /** Applying one more op applies it to what the ops before it left. */
  lemma ApplyOpsSnoc(s: Store, ops: seq<Op>, op: Op)
    requires AllSafe(ops, s.itemColumns) && SafeOp(op, s.itemColumns)
    ensures AllSafe(ops + [op], s.itemColumns)
      && ApplyOps(s, ops + [op]) == ApplyOp(ApplyOps(s, ops), op)
  {
    assert (ops + [op])[..|ops|] == ops;
  }

  /**
   * The saved answers: the old rows untouched, and answer i under the i-th fresh answers
   * id with sequence i and the item's id, and no other row.
   */
  lemma SavedAnswers(s: Store, itemId: string, c: Answers, now: string)
    requires IsDigits(itemId) || itemId == ""
    requires forall k :: k in s.answers ==> k < s.nextAnswerId
    ensures SavedState(s, itemId, c, now).nextAnswerId == s.nextAnswerId + |c.answers|
    ensures var saved := SavedState(s, itemId, c, now).answers;
      forall k :: k in s.answers ==> k in saved && saved[k] == s.answers[k]
    ensures var saved := SavedState(s, itemId, c, now).answers;
      forall k :: s.nextAnswerId <= k < s.nextAnswerId + |c.answers| ==>
        k in saved && saved[k] == AnswerValues(itemId, k - s.nextAnswerId, c.answers[k - s.nextAnswerId])
    ensures var saved := SavedState(s, itemId, c, now).answers;
      forall k :: k in saved ==> k in s.answers || s.nextAnswerId <= k < s.nextAnswerId + |c.answers|
  {
    var rows := AnswerRowsOf(itemId, c.answers);
    AppendedSpec(s.answers, s.nextAnswerId, rows);
    assert SavedState(s, itemId, c, now).answers == Appended(s.answers, s.nextAnswerId, rows);
  }

  /**
   * The saved checkboxes: the old rows untouched, the checkbox rows of the answers under
   * fresh ids, and one new row per ticked checkbox.
   */
  lemma SavedCheckboxes(s: Store, itemId: string, c: Answers, now: string)
    requires IsDigits(itemId) || itemId == ""
    requires forall k :: k in s.checkboxes ==> k < s.nextCheckboxId
    ensures SavedState(s, itemId, c, now).nextCheckboxId == s.nextCheckboxId + CheckboxCount(c.answers)
    ensures var saved := SavedState(s, itemId, c, now).checkboxes;
      forall k :: k in s.checkboxes ==> k in saved && saved[k] == s.checkboxes[k]
    ensures var saved := SavedState(s, itemId, c, now).checkboxes;
      forall k :: s.nextCheckboxId <= k < s.nextCheckboxId + CheckboxCount(c.answers) ==>
        k in saved && saved[k] == CheckboxRowsOf(itemId, c.answers)[k - s.nextCheckboxId]
    ensures |SavedState(s, itemId, c, now).checkboxes.Keys - s.checkboxes.Keys| == CheckboxCount(c.answers)
  {
    CheckboxRowsCount(itemId, c.answers);
    AppendedFacts(s.checkboxes, s.nextCheckboxId, CheckboxRowsOf(itemId, c.answers));
  }

  /**
   * The saved item: marked done with the time and the favorite flag, its other columns
   * kept, every other item left as it was, and one sync requested.
   */
  lemma SavedItems(s: Store, itemId: string, c: Answers, now: string)
    requires IsDigits(itemId)
    ensures var r := SavedState(s, itemId, c, now);
      r.items.Keys == s.items.Keys
      && (ParseNat(itemId) in s.items ==>
            r.items[ParseNat(itemId)] == s.items[ParseNat(itemId)] + MarkDoneValues(now, c.favorite))
      && (forall k :: k in s.items && k != ParseNat(itemId) ==> r.items[k] == s.items[k])
      && r.syncRequests == s.syncRequests + 1
  {
  }

  /** With an empty item id the mark-done update reaches every item. */
  lemma EmptyItemIdMarksEveryItem(s: Store, c: Answers, now: string)
    ensures var r := SavedState(s, "", c, now);
      r.items.Keys == s.items.Keys
      && forall k :: k in r.items ==> Done in r.items[k] && r.items[k][Done] == BoolV(true)
  {
  }

  /**
   * ContentProviderOperation.apply(): the insert or the update the op names, with no
   * selection. An insert that gives null raises OperationApplicationException.
   */
  method ApplyOperation(provider: ItemsContentProvider, op: Op, cache: nat -> CacheFile)
    returns (r: Result<()>)
    requires provider.Valid()
    modifies provider
    ensures provider.Valid()
    ensures provider.itemColumns == old(provider.itemColumns)
    ensures SafeOp(op, old(provider.itemColumns)) ==> r.Ok? && provider.State() == ApplyOp(old(provider.State()), op)
    ensures r.Err? ==>
      provider.items == old(provider.items) && provider.answers == old(provider.answers)
      && provider.checkboxes == old(provider.checkboxes)
    ensures r.Err? && op.NewUpdate? ==> provider.State() == old(provider.State())
    // only an item insert can give null
    ensures r == Err(BatchFailed) ==>
      op.NewInsert? && InsertRoute(Match(op.path)) == Ok(ItemsTable) && !SubjectIdMissing(op.values)
  {
    r := Ok(());
    if op.NewInsert? {
      var inserted, reserved := provider.Insert(op.path, op.values, cache);
      if inserted.Err? {
        r := Err(inserted.error);
      } else if inserted.value.None? {
        r := Err(BatchFailed);
      }
    } else {
      var updated := provider.Update(op.path, op.values, NoSelection);
      if updated.Err? {
        r := Err(updated.error);
      }
    }
  }

  /** The ops up to n, then op n: the ops up to n + 1. */
  lemma PrefixStep(s: Store, ops: seq<Op>, n: nat, before: Store, after: Store)
    requires n < |ops| && before.itemColumns == s.itemColumns
    requires AllSafe(ops[..n], s.itemColumns) ==> before == ApplyOps(s, ops[..n])
    requires SafeOp(ops[n], s.itemColumns) ==> after == ApplyOp(before, ops[n])
    ensures AllSafe(ops[..n + 1], s.itemColumns) ==> after == ApplyOps(s, ops[..n + 1])
  {
    assert ops[..n + 1][..n] == ops[..n];
  }

  /**
   * ContentProvider.applyBatch() as the provider inherits it: the ops run one by one,
   * with no transaction around them, until one fails. An insert that gives null raises
   * OperationApplicationException; any other error of an op escapes as it is. The ops
   * applied before a failure stay applied.
   */
  method ApplyBatch(provider: ItemsContentProvider, ops: seq<Op>, cache: nat -> CacheFile)
    returns (applied: nat, r: Result<()>)
    requires provider.Valid()
    modifies provider
    ensures provider.Valid()
    ensures applied <= |ops| && (r.Ok? <==> applied == |ops|)
    ensures provider.itemColumns == old(provider.itemColumns)
    ensures AllSafe(ops, old(provider.itemColumns)) ==>
      r.Ok? && provider.State() == ApplyOps(old(provider.State()), ops)
    // the op that stops the batch is not a safe one
    ensures r.Err? ==> !SafeOp(ops[applied], old(provider.itemColumns))
    // the ops before it are applied, and stay applied
    ensures AllSafe(ops[..applied], old(provider.itemColumns)) ==>
      var s := ApplyOps(old(provider.State()), ops[..applied]);
      (r.Ok? || ops[applied].NewUpdate? ==> provider.State() == s)
      && provider.items == s.items && provider.answers == s.answers && provider.checkboxes == s.checkboxes
    // only an item insert can give null
    ensures r == Err(BatchFailed) ==>
      ops[applied].NewInsert? && InsertRoute(Match(ops[applied].path)) == Ok(ItemsTable)
      && !SubjectIdMissing(ops[applied].values)
  {
    ghost var start := provider.State();
    ghost var columns := provider.itemColumns;
    applied := 0;
    r := Ok(());
    while applied < |ops|
      invariant provider.Valid() && applied <= |ops|
      invariant provider.itemColumns == columns
      invariant r.Ok?
      invariant AllSafe(ops[..applied], columns) ==> provider.State() == ApplyOps(start, ops[..applied])
      decreases |ops| - applied
    {
      ghost var before := provider.State();
      r := ApplyOperation(provider, ops[applied], cache);
      if r.Err? {
        if AllSafe(ops, columns) {
          AllSafeAt(ops, applied, columns);
        }
        return;
      }
      PrefixStep(start, ops, applied, before, provider.State());
      applied := applied + 1;
    }
    assert ops[..applied] == ops;
  }
}

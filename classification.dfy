/**
 * QuestionFragment.ClassificationInProgress: the answers given so far to the current
 * subject, in order, with the favorite flag, and its Parcel form.
 *
 * A Parcel is modelled as the sequence of the values written to it: ints, and strings
 * that may be null. writeTypedList writes the count, then for each element a 1 (non-null)
 * followed by the element; writeString writes one string item; writeStringList writes -1
 * for null, or the count followed by the strings.
 */
module Classification {
  import opened Common

  /** One answered question and the checkboxes selected for it (null when it has none). */
  datatype QuestionAnswer = QuestionAnswer(questionId: string, answerId: string, checkboxIds: Option<seq<string>>)

  /** The value of a ClassificationInProgress. */
  datatype Answers = Answers(answers: seq<QuestionAnswer>, favorite: bool)

  datatype ParcelItem = PInt(i: int) | PStr(s: Option<string>)

  type Parcel = seq<ParcelItem>

  // ---------------------------------------------------------------------------------
  // Writing

  /** The strings of a list, one item each. */
  function StringItems(xs: seq<string>): (p: Parcel)
    ensures |p| == |xs|
    decreases |xs|
  {
    if xs == [] then [] else [PStr(Some(xs[0]))] + StringItems(xs[1..])
  }

  /** Item i of a written string list holds string i. */
  lemma {:induction false} StringItemsSpec(xs: seq<string>)
    ensures forall i :: 0 <= i < |xs| ==> StringItems(xs)[i] == PStr(Some(xs[i]))
    decreases |xs|
  {
    if xs != [] {
      StringItemsSpec(xs[1..]);
      forall i | 1 <= i < |xs|
        ensures StringItems(xs)[i] == PStr(Some(xs[i]))
      {
        assert StringItems(xs)[i] == StringItems(xs[1..])[i - 1];
      }
    }
  }

  /** Parcel.writeStringList. */
  function WriteStringList(list: Option<seq<string>>): Parcel {
    match list
    case None => [PInt(-1)]
    case Some(xs) => [PInt(|xs|)] + StringItems(xs)
  }

  /** QuestionAnswer.writeToParcel. */
  function WriteAnswer(a: QuestionAnswer): Parcel {
    [PStr(Some(a.questionId)), PStr(Some(a.answerId))] + WriteStringList(a.checkboxIds)
  }

  /** The elements of Parcel.writeTypedList, each after its non-null marker. */
  function WriteAnswerItems(answers: seq<QuestionAnswer>): Parcel
    decreases |answers|
  {
    if answers == [] then [] else [PInt(1)] + WriteAnswer(answers[0]) + WriteAnswerItems(answers[1..])
  }

  /** ClassificationInProgress.writeToParcel. */
  function WriteClassification(c: Answers): Parcel {
    [PInt(|c.answers|)] + WriteAnswerItems(c.answers) + [PInt(if c.favorite then 1 else 0)]
  }

  // ---------------------------------------------------------------------------------
  // Reading: each reader returns the value and the rest of the parcel, or None for a
  // parcel that writeToParcel cannot have produced.

  function ReadInt(p: Parcel): Option<(int, Parcel)> {
    if |p| > 0 && p[0].PInt? then Some((p[0].i, p[1..])) else None
  }

  /** Parcel.readString of a non-null string. */
  function ReadString(p: Parcel): Option<(string, Parcel)> {
    if |p| > 0 && p[0].PStr? && p[0].s.Some? then Some((p[0].s.value, p[1..])) else None
  }

  function ReadStrings(p: Parcel, n: nat): Option<(seq<string>, Parcel)>
    decreases n
  {
    if n == 0 then Some(([], p))
    else match ReadString(p)
      case None => None
      case Some((x, rest)) =>
        match ReadStrings(rest, n - 1)
        case None => None
        case Some((xs, rest')) => Some(([x] + xs, rest'))
  }

  /** Parcel.createStringArrayList: a negative count is null. */
  function ReadStringList(p: Parcel): Option<(Option<seq<string>>, Parcel)> {
    match ReadInt(p)
    case None => None
    case Some((n, rest)) =>
      if n < 0 then Some((None, rest))
      else match ReadStrings(rest, n)
        case None => None
        case Some((xs, rest')) => Some((Some(xs), rest'))
  }

  /** The QuestionAnswer(Parcel) constructor. */
  function ReadAnswer(p: Parcel): Option<(QuestionAnswer, Parcel)> {
    match ReadString(p)
    case None => None
    case Some((q, p1)) =>
      match ReadString(p1)
      case None => None
      case Some((a, p2)) =>
        match ReadStringList(p2)
        case None => None
        case Some((cb, p3)) => Some((QuestionAnswer(q, a, cb), p3))
  }

  /** The elements of Parcel.createTypedArrayList; a null element (marker 0) is refused. */
  function ReadAnswerItems(p: Parcel, n: nat): Option<(seq<QuestionAnswer>, Parcel)>
    decreases n
  {
    if n == 0 then Some(([], p))
    else match ReadInt(p)
      case None => None
      case Some((marker, p1)) =>
        if marker == 0 then None
        else match ReadAnswer(p1)
          case None => None
          case Some((a, p2)) =>
            match ReadAnswerItems(p2, n - 1)
            case None => None
            case Some((rest, p3)) => Some(([a] + rest, p3))
  }

  /**
   * The ClassificationInProgress(Parcel) constructor: the typed list (a negative count
   * would be a null list), then the favorite flag, which is set only by a 1.
   */
  function ReadClassification(p: Parcel): Option<Answers> {
    match ReadInt(p)
    case None => None
    case Some((n, p1)) =>
      if n < 0 then None
      else match ReadAnswerItems(p1, n)
        case None => None
        case Some((answers, p2)) =>
          match ReadInt(p2)
          case None => None
          case Some((flag, _)) => Some(Answers(answers, flag == 1))
  }

  // ---------------------------------------------------------------------------------
  // Round trips

  lemma {:induction false} ReadStringsWritten(xs: seq<string>, rest: Parcel)
    ensures ReadStrings(StringItems(xs) + rest, |xs|) == Some((xs, rest))
    decreases |xs|
  {
    if xs != [] {
      var tail := StringItems(xs[1..]) + rest;
      assert StringItems(xs) + rest == [PStr(Some(xs[0]))] + tail;
      assert ReadString([PStr(Some(xs[0]))] + tail) == Some((xs[0], tail)) by {
        assert ([PStr(Some(xs[0]))] + tail)[1..] == tail;
      }
      ReadStringsWritten(xs[1..], rest);
      assert [xs[0]] + xs[1..] == xs;
    } else {
      assert StringItems(xs) + rest == rest;
    }
  }

  lemma ReadStringListWritten(list: Option<seq<string>>, rest: Parcel)
    ensures ReadStringList(WriteStringList(list) + rest) == Some((list, rest))
  {
    match list
    case None =>
    case Some(xs) =>
      assert WriteStringList(list) + rest == [PInt(|xs|)] + (StringItems(xs) + rest);
      ReadStringsWritten(xs, rest);
  }

  lemma ReadAnswerWritten(a: QuestionAnswer, rest: Parcel)
    ensures ReadAnswer(WriteAnswer(a) + rest) == Some((a, rest))
  {
    var p := WriteAnswer(a) + rest;
    assert p == [PStr(Some(a.questionId))] + ([PStr(Some(a.answerId))] + (WriteStringList(a.checkboxIds) + rest));
    ReadStringListWritten(a.checkboxIds, rest);
  }

  lemma {:induction false} ReadAnswerItemsWritten(answers: seq<QuestionAnswer>, rest: Parcel)
    ensures ReadAnswerItems(WriteAnswerItems(answers) + rest, |answers|) == Some((answers, rest))
    decreases |answers|
  {
    if answers != [] {
      var tail := WriteAnswerItems(answers[1..]) + rest;
      assert WriteAnswerItems(answers) + rest == [PInt(1)] + (WriteAnswer(answers[0]) + tail);
      assert ReadInt([PInt(1)] + (WriteAnswer(answers[0]) + tail)) == Some((1, WriteAnswer(answers[0]) + tail)) by {
        assert ([PInt(1)] + (WriteAnswer(answers[0]) + tail))[1..] == WriteAnswer(answers[0]) + tail;
      }
      ReadAnswerWritten(answers[0], tail);
      ReadAnswerItemsWritten(answers[1..], rest);
      assert [answers[0]] + answers[1..] == answers;
    } else {
      assert WriteAnswerItems(answers) + rest == rest;
    }
  }

  /**
   * Reading back what writeToParcel wrote restores the classification: the answers in
   * order with their checkboxes, and the favorite flag. Items after it are left alone.
   */
  lemma ParcelRoundTrip(c: Answers, rest: Parcel)
    ensures ReadClassification(WriteClassification(c) + rest) == Some(c)
  {
    var flag := [PInt(if c.favorite then 1 else 0)];
    assert WriteClassification(c) + rest == [PInt(|c.answers|)] + (WriteAnswerItems(c.answers) + (flag + rest));
    ReadAnswerItemsWritten(c.answers, flag + rest);
  }

  /** Two classifications with the same parcel are the same: writeToParcel loses nothing. */
  lemma WriteClassificationInjective(c: Answers, d: Answers)
    requires WriteClassification(c) == WriteClassification(d)
    ensures c == d
  {
    ParcelRoundTrip(c, []);
    ParcelRoundTrip(d, []);
    assert WriteClassification(c) + [] == WriteClassification(c);
    assert WriteClassification(d) + [] == WriteClassification(d);
  }

  /** hasEnoughAnswers(): more than one answer, the discuss answer being always one of them. */
  predicate EnoughAnswers(c: Answers) {
    |c.answers| > 1
  }

  // ---------------------------------------------------------------------------------
  // The mutable accumulator

  class ClassificationInProgress {
    var answers: seq<QuestionAnswer>
    var favorite: bool

    function Value(): Answers
      reads this
    {
      Answers(answers, favorite)
    }

    /** No answers, not a favorite. */
    constructor ()
      ensures answers == [] && !favorite
    {
      answers := [];
      favorite := false;
    }

    /**
     * The copy constructor: the answers are copied (getAnswers() copies each
     * QuestionAnswer and its checkbox list), so the copy is equal and shares nothing.
     */
    constructor Copy(other: ClassificationInProgress)
      ensures Value() == old(other.Value())
    {
      var copied := other.GetAnswers();
      answers := copied;
      favorite := other.favorite;
    }

    /** add(): append one answer; a checkbox list is copied as it is. */
    method Add(questionId: string, answerId: string, checkboxIds: Option<seq<string>>)
      modifies this
      ensures answers == old(answers) + [QuestionAnswer(questionId, answerId, checkboxIds)]
      ensures favorite == old(favorite)
    {
      answers := answers + [QuestionAnswer(questionId, answerId, checkboxIds)];
    }

    method SetFavorite(value: bool)
      modifies this
      ensures favorite == value && answers == old(answers)
    {
      favorite := value;
    }

    /** getAnswers(): a copy of every answer, in order. */
    method GetAnswers() returns (result: seq<QuestionAnswer>)
      ensures result == answers
    {
      result := [];
      for i := 0 to |answers|
        invariant result == answers[..i]
      {
        result := result + [answers[i]];
      }
    }

    /** hasEnoughAnswers(). */
    function HasEnoughAnswers(): (r: bool)
      reads this
      ensures r <==> EnoughAnswers(Value())
    {
      |answers| > 1
    }

    /** equals(): the same favorite flag and equal answers, element by element. */
    function Equals(other: ClassificationInProgress): (r: bool)
      reads this, other
      ensures r <==> Value() == other.Value()
    {
      favorite == other.favorite && answers == other.answers
    }

    /** writeToParcel(). */
    function WriteToParcel(): (p: Parcel)
      reads this
      ensures ReadClassification(p) == Some(Value())
    {
      ParcelRoundTrip(Value(), []);
      assert WriteClassification(Value()) + [] == WriteClassification(Value());
      WriteClassification(Value())
    }

    /** CREATOR.createFromParcel(); a parcel writeToParcel cannot have produced gives null. */
    static method CreateFromParcel(p: Parcel) returns (c: ClassificationInProgress?)
      ensures c == null <==> ReadClassification(p).None?
      ensures c != null ==> fresh(c) && c.Value() == ReadClassification(p).value
    {
      var read := ReadClassification(p);
      if read.None? {
        c := null;
      } else {
        c := new ClassificationInProgress();
        c.answers := read.value.answers;
        c.favorite := read.value.favorite;
      }
    }
  }

  /**
   * Handing a copy to the save task: answers added to the original afterwards do not
   * reach the copy, and the copy still equals what the original held when copied.
   */
  method CopyThenAdd(original: ClassificationInProgress, questionId: string, answerId: string)
    returns (copy: ClassificationInProgress)
    modifies original
    ensures fresh(copy)
    ensures copy.Value() == old(original.Value())
    ensures original.answers == old(original.answers) + [QuestionAnswer(questionId, answerId, None)]
  {
    copy := new ClassificationInProgress.Copy(original);
    original.Add(questionId, answerId, None);
  }

  /** A parcelled and recreated classification equals the original. */
  method ParcelAndRecreate(c: ClassificationInProgress) returns (d: ClassificationInProgress?)
    ensures d != null && d.Equals(c)
  {
    var p := c.WriteToParcel();
    d := ClassificationInProgress.CreateFromParcel(p);
  }
}

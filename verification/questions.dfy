/** `QuizQuestion`: a question whose private constructor is reached only through a
    validating factory that shuffles the options and re-locates the correct one. */
module Questions {
  import opened Wrappers
  import opened Text
  import opened Lists
  import opened Shuffling

  datatype QuizQuestion = QuizQuestion(
    title: string,
    options: seq<string>,
    index: int,
    url: Option<string>)
  {
    /** What the factory's four `require`s establish. */
    predicate WellFormed()
    {
      && !IsBlank(title)
      && |options| > 0
      && NoDuplicates(options)
      && 0 <= index < |options|
    }
  }

  /** The constructor is private, so every question in the program is well formed. */
  type Question = q: QuizQuestion | q.WellFormed()
    witness
      assert !IsWhitespace("?"[0]) && |["?"]| == 1;
      QuizQuestion("?", ["?"], 0, None)

  /** The text of the correct option, `options[index]`. */
  function CorrectAnswer(q: Question): (r: string)
  {
    q.options[q.index]
  }

  /** The four `require` failures, in the order they are checked. */
  datatype QuestionError = BlankTitle | EmptyOptions | DuplicateOptions | IndexOutOfRange

  /** `QuizQuestion.invoke`: validate, shuffle with the given draws, and find the
      correct answer's new position. */
  function NewQuestion(title: string, options: seq<string>, index: int, url: Option<string>,
                       draws: seq<nat>): (r: Result<Question, QuestionError>)
    requires ValidDraws(draws, |options|)
    ensures r.Success? <==> QuizQuestion(title, options, index, url).WellFormed()
    ensures IsBlank(title) ==> r == Failure(BlankTitle)
    ensures !IsBlank(title) && |options| == 0 ==> r == Failure(EmptyOptions)
    ensures !IsBlank(title) && |options| > 0 && !NoDuplicates(options)
            ==> r == Failure(DuplicateOptions)
    ensures !IsBlank(title) && |options| > 0 && NoDuplicates(options) && !(0 <= index < |options|)
            ==> r == Failure(IndexOutOfRange)
    ensures r.Success? ==>
              && r.value.title == title
              && r.value.url == url
              && multiset(r.value.options) == multiset(options)
              && |r.value.options| == |options|
              && CorrectAnswer(r.value) == options[index]
  {
    DistinctKeepsLengthIff(options);
    if IsBlank(title) then Failure(BlankTitle)
    else if |options| == 0 then Failure(EmptyOptions)
    else if |options| != |Distinct(options)| then Failure(DuplicateOptions)
    else if !(0 <= index < |options|) then Failure(IndexOutOfRange)
    else Success(ShuffleOptions(QuizQuestion(title, options, index, url), draws))
  }

  /** The factory's last three lines: shuffle the options, then look up the
      correct answer's new position with `indexOf`. */
  function ShuffleOptions(q: Question, draws: seq<nat>): (r: Question)
    requires ValidDraws(draws, |q.options|)
    ensures r.title == q.title && r.url == q.url
    ensures multiset(r.options) == multiset(q.options)
    ensures CorrectAnswer(r) == CorrectAnswer(q)
  {
    var correctAnswer := q.options[q.index];
    var shuffled := Shuffle(q.options, draws);
    assert correctAnswer in multiset(shuffled);
    var newIndex := IndexOf(shuffled, correctAnswer);
    QuizQuestion(q.title, shuffled, newIndex, q.url)
  }

  /** Every order of the options is a possible outcome of the factory, each with
      the correct answer re-located. */
  lemma EveryOrderIsPossible(title: string, options: seq<string>, index: int, url: Option<string>,
                             order: seq<string>)
    requires QuizQuestion(title, options, index, url).WellFormed()
    requires multiset(order) == multiset(options)
    ensures var draws := DrawsFor(options, order);
            && ValidDraws(draws, |options|)
            && NewQuestion(title, options, index, url, draws).Success?
            && NewQuestion(title, options, index, url, draws).value.options == order
  {
  }
}

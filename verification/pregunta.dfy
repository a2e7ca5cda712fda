/**
 * The question document (Backend/src/models/pregunta.js): an ordered list of
 * options, each flagged correct or not, plus the question's maximum score
 * and its position inside the quiz. The schema has no per-question time
 * limit, so every read of one comes back absent.
 */
module PreguntaModel {

  import opened Wrappers
  import opened Seqs
  import opened Constants

  /** OpcionSchema: text is required, the flag defaults to false, `orden` is optional. */
  datatype Choice = Choice(text: string, isCorrect: bool, order: Option<int>)

  /** PreguntaSchema; `position` is `ordenPregunta`, `maxPoints` is `puntuacionMax`. */
  datatype Question = Question(
    id: string,
    quizId: string,
    text: string,
    kind: QuestionKind,
    options: seq<Choice>,
    maxPoints: int,
    position: int,
    visibility: QuestionVisibility)

  /** `puntuacionMax` when the document does not give one. */
  const DefaultMaxPoints: int := 1000

  /** An option as created without an explicit flag. */
  function NewChoice(text: string): (c: Choice)
    ensures !c.isCorrect && c.text == text
  {
    Choice(text, false, None)
  }

  /** A question as created without `tipoPregunta`, `puntuacionMax` or `estado`. */
  function NewQuestion(id: string, quizId: string, text: string, options: seq<Choice>, position: int): (q: Question)
    ensures q.maxPoints == DefaultMaxPoints && q.kind == Unica && q.visibility == Visible
    ensures q.position == position && q.options == options
  {
    Question(id, quizId, text, Unica, options, DefaultMaxPoints, position, Visible)
  }

  /**
   * The indices of the options flagged correct, ascending
   * (`opciones.map((op, i) => op.esCorrecta ? i : -1).filter(i => i !== -1)`).
   */
  function CorrectIndices(opts: seq<Choice>): (r: seq<int>)
    ensures forall i, j :: 0 <= i < j < |r| ==> r[i] < r[j]
    ensures forall k :: 0 <= k < |r| ==> 0 <= r[k] < |opts| && opts[r[k]].isCorrect
    ensures forall i :: 0 <= i < |opts| && opts[i].isCorrect ==> i in r
  {
    if |opts| == 0 then []
    else
      var n := |opts| - 1;
      var prefix := CorrectIndices(opts[..n]);
      assert forall k :: 0 <= k < |prefix| ==> opts[..n][prefix[k]] == opts[prefix[k]];
      prefix + (if opts[n].isCorrect then [n] else [])
  }

  /** Index of the first option flagged correct, -1 when none is (`findIndex`). */
  function FirstCorrectIndex(opts: seq<Choice>): (r: int)
    ensures -1 <= r < |opts|
    ensures r == -1 <==> forall i :: 0 <= i < |opts| ==> !opts[i].isCorrect
    ensures r >= 0 ==> opts[r].isCorrect && forall i :: 0 <= i < r ==> !opts[i].isCorrect
  {
    match FirstIndex(opts, (c: Choice) => c.isCorrect)
    case None => -1
    case Some(k) => k
  }

  /** The sort key that puts questions in ascending `ordenPregunta`. */
  function PositionKey(q: Question): int {
    -q.position
  }

  /**
   * `Pregunta.find({ idCuestionario }).sort({ ordenPregunta: 1 })`: the
   * quiz's questions in ascending position. Mongo leaves the order of equal
   * positions open; the model keeps them in store order.
   */
  function QuizQuestions(all: seq<Question>, quizId: string): (r: seq<Question>)
    ensures forall i :: 0 <= i < |r| ==> r[i].quizId == quizId && r[i] in all
    ensures forall i, j :: 0 <= i < j < |r| ==> r[i].position <= r[j].position
    ensures forall i :: 0 <= i < |all| && all[i].quizId == quizId ==> all[i] in r
  {
    var mine := Filter(all, (q: Question) => q.quizId == quizId);
    var r := SortDesc(mine, PositionKey);
    SortedByPosition(mine, r);
    r
  }

  /**
   * The quiz's questions are a rearrangement of the stored questions of
   * that quiz: each occurs as often as it is stored, and no other occurs.
   */
  lemma QuizQuestionsPermutes(all: seq<Question>, quizId: string)
    ensures forall q :: multiset(QuizQuestions(all, quizId))[q] == if q.quizId == quizId then multiset(all)[q] else 0
  {
    var mine := Filter(all, (q: Question) => q.quizId == quizId);
    SortedByPosition(mine, SortDesc(mine, PositionKey));
    FilterMultiset(all, (q: Question) => q.quizId == quizId);
  }

  lemma SortedByPosition(mine: seq<Question>, r: seq<Question>)
    requires r == SortDesc(mine, PositionKey)
    ensures forall i, j :: 0 <= i < j < |r| ==> r[i].position <= r[j].position
    ensures multiset(r) == multiset(mine)
    ensures forall i :: 0 <= i < |r| ==> r[i] in mine
    ensures forall i :: 0 <= i < |mine| ==> mine[i] in r
  {
    SortDescSpec(mine, PositionKey);
    forall i, j | 0 <= i < j < |r|
      ensures r[i].position <= r[j].position
    {
      assert PositionKey(r[i]) >= PositionKey(r[j]);
    }
    forall i | 0 <= i < |r|
      ensures r[i] in mine
    {
      assert r[i] in multiset(mine);
    }
    forall i | 0 <= i < |mine|
      ensures mine[i] in r
    {
      assert mine[i] in multiset(r);
    }
  }

  /** `Pregunta.findById(id)`: the first question with that id, if any. */
  function FindQuestion(all: seq<Question>, id: string): (r: Option<Question>)
    ensures r.Some? ==> r.value in all && r.value.id == id
    ensures r.None? <==> forall i :: 0 <= i < |all| ==> all[i].id != id
  {
    match FirstIndex(all, (q: Question) => q.id == id)
    case None => None
    case Some(k) => Some(all[k])
  }
}

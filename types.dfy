/** The value types shared by the game (types.ts). */
module Types {
  import opened Wrappers

  /** The seven concrete quiz categories plus the "random" sentinel. */
  datatype Category = Religion | Geography | History | Science | Sport | Literature | Art | Random

  datatype Difficulty = Easy | Medium | Hard

  datatype Language = Ar | En

  /** The literal string the source uses for each category. */
  function CategoryLabel(c: Category): (text: string)
    ensures text != ""
  {
    match c
    case Religion => "ديني 🕋"
    case Geography => "جغرافيا 🌍"
    case History => "تاريخ 📜"
    case Science => "علوم 🔬"
    case Sport => "رياضة 🏅"
    case Literature => "أدب 📚"
    case Art => "فن 🎨"
    case Random => "عشوائي 🎲"
  }

  /** The literal string the source uses for each difficulty. */
  function DifficultyLabel(d: Difficulty): (text: string)
    ensures text != ""
  {
    match d
    case Easy => "سهل"
    case Medium => "متوسط"
    case Hard => "صعب"
  }

  /** Distinct categories carry distinct labels, so comparing labels (as the
      source does) is the same as comparing the enumeration values. */
  lemma CategoryLabelInjective(c: Category, d: Category)
    ensures CategoryLabel(c) == CategoryLabel(d) <==> c == d
  {
    if c != d {
      var lc, ld := CategoryLabel(c), CategoryLabel(d);
      assert lc[0] != ld[0] || lc[1] != ld[1];
    }
  }

  lemma DifficultyLabelInjective(d: Difficulty, e: Difficulty)
    ensures DifficultyLabel(d) == DifficultyLabel(e) <==> d == e
  {
    if d != e {
      assert DifficultyLabel(d)[0] != DifficultyLabel(e)[0];
    }
  }

  /** The category picker's entries, in display order. */
  const CategoryOptions: seq<Category> :=
    [Random, Religion, Geography, Science, History, Sport, Literature, Art]

  /** The difficulty picker's entries, in display order. */
  const DifficultyOptions: seq<Difficulty> := [Easy, Medium, Hard]

  /** Every category appears exactly once in the picker, and the sentinel is first. */
  lemma CategoryOptionsComplete(c: Category)
    ensures multiset(CategoryOptions)[c] == 1
    ensures CategoryOptions[0] == Random
  {
    assert multiset(CategoryOptions)
        == multiset{Random, Religion, Geography, Science, History, Sport, Literature, Art};
  }

  /** Every difficulty appears exactly once, in increasing order. */
  lemma DifficultyOptionsComplete(d: Difficulty)
    ensures multiset(DifficultyOptions)[d] == 1
    ensures DifficultyOptions[0] == Easy && DifficultyOptions[1] == Medium && DifficultyOptions[2] == Hard
  {
    assert multiset(DifficultyOptions) == multiset{Easy, Medium, Hard};
  }

  /** A generated or fallback question; `explanation` is optional. */
  datatype QuestionData = QuestionData(
    question: string,
    answer: string,
    explanation: Option<string>,
    category: Category,
    difficulty: Difficulty)

  /** One player on the wheel. `score` is a JS number used as an integer. */
  datatype Participant = Participant(id: string, name: string, color: string, score: int)
}

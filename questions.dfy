/** Question acquisition (services/geminiService.ts): category resolution,
    the bundled fallback bank, and the offline / remote-success / failure
    branches of `fetchQuestion`. The random draws, the connectivity flag and
    the remote service are parameters. */
module Questions {
  import opened Wrappers
  import opened Types
  import Js

  /** One entry of the bundled bank: question, answer, optional explanation. */
  datatype FallbackItem = FallbackItem(q: string, a: string, e: Option<string>)

  function Item(q: string, a: string): FallbackItem {
    FallbackItem(q, a, None)
  }

  const ArReligion: seq<FallbackItem> := [
    FallbackItem("ما هو الركن الثاني من أركان الإسلام؟", "الصلاة",
                 Some("تعتبر الصلاة عماد الدين وهي أول ما يحاسب عليه المرء.")),
    Item("من هو أول خليفة بعد النبي محمد ﷺ؟", "أبو بكر الصديق رضي الله عنه"),
    Item("ما اسم أطول سورة في القرآن الكريم؟", "سورة البقرة")]
  const ArGeography: seq<FallbackItem> := [
    Item("ما هي عاصمة اليابان؟", "طوكيو"),
    Item("ما هي أصغر دولة في العالم من حيث المساحة؟", "الفاتيكان"),
    Item("ما هو أطول نهر في العالم؟", "نهر النيل")]
  const ArScience: seq<FallbackItem> := [
    Item("ما هو الكوكب الملقب بالكوكب الأحمر؟", "المريخ"),
    Item("ما هو الرمز الكيميائي للأكسجين؟", "O"),
    Item("ما هي أصلب مادة طبيعية على وجه الأرض؟", "الألماس")]
  const ArHistory: seq<FallbackItem> := [
    Item("من هو العالم الذي اكتشف الجاذبية؟", "إسحاق نيوتن"),
    Item("في أي عام بدأت الحرب العالمية الأولى؟", "1914")]
  const EnReligion: seq<FallbackItem> := [Item("What is the second pillar of Islam?", "Prayer (Salah)")]
  const EnGeography: seq<FallbackItem> := [Item("What is the capital of Japan?", "Tokyo")]
  const EnScience: seq<FallbackItem> := [Item("What is the chemical symbol for Oxygen?", "O")]
  const EnHistory: seq<FallbackItem> := [Item("Who discovered gravity?", "Isaac Newton")]

  /** `FALLBACK_BANK[lang][category]`; None where the bank has no such key. */
  function Bank(lang: Language, c: Category): (pool: Option<seq<FallbackItem>>)
    ensures pool.Some? <==> c in {Religion, Geography, Science, History}
  {
    match lang
    case Ar =>
      (match c
       case Religion => Some(ArReligion)
       case Geography => Some(ArGeography)
       case Science => Some(ArScience)
       case History => Some(ArHistory)
       case _ => None)
    case En =>
      (match c
       case Religion => Some(EnReligion)
       case Geography => Some(EnGeography)
       case Science => Some(EnScience)
       case History => Some(EnHistory)
       case _ => None)
  }

  /** An item the game can show: its question and answer are not empty. */
  predicate Usable(item: FallbackItem) {
    item.q != "" && item.a != ""
  }

  /** Every pool in the bank is non-empty and holds only usable items. */
  lemma BankWellFormed(lang: Language, c: Category)
    ensures Bank(lang, c).Some? ==> |Bank(lang, c).value| > 0
    ensures Bank(lang, c).Some? ==> forall k :: 0 <= k < |Bank(lang, c).value| ==> Usable(Bank(lang, c).value[k])
  {
  }

  /** The concrete categories the random sentinel draws from, in the order
      the draw indexes them. */
  const RandomPool: seq<Category> := [Religion, Geography, History, Science, Sport, Literature, Art]

  /** `Math.floor(u * len)` for a draw `u = Math.random()` in [0, 1). */
  function PickIndex(u: real, len: nat): (i: nat)
    requires 0.0 <= u < 1.0 && len > 0
    ensures i < len
    ensures i as real <= u * len as real < i as real + 1.0
  {
    assert u * len as real < len as real;
    (u * len as real).Floor
  }

  /** `categories[0] || random`, then the sentinel replaced by a draw from
      the concrete pool. */
  function ResolveCategory(categories: seq<Category>, u: real): (c: Category)
    requires 0.0 <= u < 1.0
    ensures c != Random
    ensures |categories| > 0 && categories[0] != Random ==> c == categories[0]
    ensures |categories| == 0 || categories[0] == Random ==> c in RandomPool
  {
    var selected := if |categories| > 0 then categories[0] else Random;
    if selected == Random then RandomPool[PickIndex(u, |RandomPool|)] else selected
  }

  /** An empty selection behaves as the sentinel, and the draw gives each of
      the seven concrete categories the same share: the k-th seventh of
      [0, 1) picks the k-th category. */
  lemma RandomShare(u: real, k: nat)
    requires k < |RandomPool| && k as real / 7.0 <= u < (k as real + 1.0) / 7.0
    ensures ResolveCategory([], u) == RandomPool[k]
    ensures ResolveCategory([Random], u) == RandomPool[k]
  {
    var i := PickIndex(u, |RandomPool|);
    assert k as real <= u * 7.0 < k as real + 1.0;
    assert i == k;
  }

  /** The pool the local question is drawn from: the exact (language,
      category) pool, else the language's Geography pool, else the Arabic
      Geography pool. */
  function FallbackPool(lang: Language, c: Category): (pool: seq<FallbackItem>)
    ensures |pool| > 0
    ensures forall k :: 0 <= k < |pool| ==> Usable(pool[k])
    ensures Bank(lang, c).Some? ==> pool == Bank(lang, c).value
    ensures Bank(lang, c).None? && Bank(lang, Geography).Some? ==> pool == Bank(lang, Geography).value
  {
    BankWellFormed(lang, c);
    BankWellFormed(lang, Geography);
    BankWellFormed(Ar, Geography);
    if Bank(lang, c).Some? then Bank(lang, c).value
    else if Bank(lang, Geography).Some? then Bank(lang, Geography).value
    else ArGeography
  }

  /** Sport, Literature and Art have no bundled pool in either language, so
      they are served Geography questions. */
  lemma UnbankedCategoriesUseGeography(lang: Language, c: Category)
    requires c in {Sport, Literature, Art}
    ensures FallbackPool(lang, c) == FallbackPool(lang, Geography)
  {
  }

  /** The local item picked by the second draw. */
  function LocalItem(lang: Language, c: Category, v: real): (item: FallbackItem)
    requires 0.0 <= v < 1.0
    ensures Usable(item)
  {
    var pool := FallbackPool(lang, c);
    pool[PickIndex(v, |pool|)]
  }

  /** The local item is a member of the fallback pool. */
  lemma LocalItemInPool(lang: Language, c: Category, v: real)
    requires 0.0 <= v < 1.0
    ensures LocalItem(lang, c, v) in FallbackPool(lang, c)
  {
    var pool := FallbackPool(lang, c);
    assert LocalItem(lang, c, v) == pool[PickIndex(v, |pool|)];
  }

  /** What is sent to the remote service. `recent` is the de-duplication hint. */
  datatype Request = Request(category: Category, difficulty: Difficulty, language: Language, recent: seq<string>)

  /** The fields the remote payload may carry (all optional strings). */
  datatype Payload = Payload(question: Option<string>, answer: Option<string>, explanation: Option<string>)

  /** The remote service, seen from the caller: a payload, or None for every
      failure (a thrown SDK error, an empty response text, unparsable JSON). */
  type Remote = Request -> Option<Payload>

  /** `history.slice(-10)`: the most recent ten questions at most. */
  function RecentHistory(history: seq<string>): (recent: seq<string>)
    ensures |recent| == if |history| < 10 then |history| else 10
    ensures recent == history[|history| - |recent|..]
  {
    Js.SliceLast(history, 10)
  }

  function BuildRequest(c: Category, difficulty: Difficulty, history: seq<string>, lang: Language): (req: Request)
    ensures req.category == c && req.difficulty == difficulty && req.language == lang
    ensures |req.recent| == if |history| < 10 then |history| else 10
    ensures req.recent == history[|history| - |req.recent|..]
  {
    Request(c, difficulty, lang, RecentHistory(history))
  }

  /** JS `value || fallback` on an optional string: the empty string counts
      as missing. */
  function OrElse(value: Option<string>, fallback: string): (r: string)
    ensures value.Some? && value.value != "" ==> r == value.value
    ensures value.None? || value.value == "" ==> r == fallback
  {
    if value.Some? && value.value != "" then value.value else fallback
  }

  /** The explanation an offline question without its own one carries. */
  function ArchiveNote(lang: Language): (note: string)
    ensures note != ""
  {
    if lang == Ar then "من الأرشيف المحلي" else "From local archive"
  }

  /** The explanation a failed remote call carries. */
  function FailureNote(lang: Language): (note: string)
    ensures note != ""
  {
    if lang == Ar then "عذراً، تعذر الاتصال بالذكاء الاصطناعي حالياً. تم استخدام سؤال احتياطي."
    else "AI connection failed. Using fallback question."
  }

  /** The question shown after a remote answer: each of question and answer
      is the payload's when non-empty and the local item's otherwise, the
      explanation is the payload's or "", and the requested difficulty is
      kept. */
  function RemoteQuestion(data: Payload, local: FallbackItem, c: Category, difficulty: Difficulty): (r: QuestionData)
    ensures r.category == c && r.difficulty == difficulty
    ensures data.question.Some? && data.question.value != "" ==> r.question == data.question.value
    ensures data.question.None? || data.question.value == "" ==> r.question == local.q
    ensures data.answer.Some? && data.answer.value != "" ==> r.answer == data.answer.value
    ensures data.answer.None? || data.answer.value == "" ==> r.answer == local.a
    ensures data.explanation.Some? && data.explanation.value != "" ==> r.explanation == data.explanation
    ensures data.explanation.None? || data.explanation.value == "" ==> r.explanation == Some("")
  {
    QuestionData(OrElse(data.question, local.q), OrElse(data.answer, local.a),
                 Some(OrElse(data.explanation, "")), c, difficulty)
  }

  /** `fetchQuestion(categories, difficulty, history, language)`.
      `u` and `v` are the two `Math.random()` draws (category, local item),
      `online` is `navigator.onLine`, `remote` answers the request. */
  function FetchQuestion(categories: seq<Category>, difficulty: Difficulty, history: seq<string>,
                         lang: Language, u: real, v: real, online: bool, remote: Remote): (r: QuestionData)
    requires 0.0 <= u < 1.0 && 0.0 <= v < 1.0
    ensures r.question != "" && r.answer != ""
    ensures r.category == ResolveCategory(categories, u) && r.category != Random
    ensures !online ==> r.difficulty == Medium
  {
    var c := ResolveCategory(categories, u);
    var local := LocalItem(lang, c, v);
    if !online then
      QuestionData(local.q, local.a, Some(OrElse(local.e, ArchiveNote(lang))), c, Medium)
    else
      match remote(BuildRequest(c, difficulty, history, lang))
      case Some(data) =>
        assert Usable(local);
        RemoteQuestion(data, local, c, difficulty)
      case None =>
        QuestionData(local.q, local.a, Some(FailureNote(lang)), c, Medium)
  }

  /** Offline: the local item, its own explanation or the "local archive"
      note, and Medium whatever was asked for. */
  lemma FetchOffline(categories: seq<Category>, difficulty: Difficulty, history: seq<string>,
                     lang: Language, u: real, v: real, remote: Remote)
    requires 0.0 <= u < 1.0 && 0.0 <= v < 1.0
    ensures var r, c := FetchQuestion(categories, difficulty, history, lang, u, v, false, remote), ResolveCategory(categories, u);
      var local := LocalItem(lang, c, v);
      r.question == local.q && r.answer == local.a && r.difficulty == Medium
      && (local.e.Some? && local.e.value != "" ==> r.explanation == local.e)
      && (local.e.None? || local.e.value == "" ==> r.explanation == Some(ArchiveNote(lang)))
  {
  }

  /** Online and answered: each of question and answer is the payload's when
      non-empty and the local item's otherwise; the explanation is the
      payload's or ""; the requested difficulty is kept. */
  lemma FetchRemoteSuccess(categories: seq<Category>, difficulty: Difficulty, history: seq<string>,
                           lang: Language, u: real, v: real, remote: Remote)
    requires 0.0 <= u < 1.0 && 0.0 <= v < 1.0
    requires remote(BuildRequest(ResolveCategory(categories, u), difficulty, history, lang)).Some?
    ensures var c := ResolveCategory(categories, u);
      var r, data := FetchQuestion(categories, difficulty, history, lang, u, v, true, remote),
                     remote(BuildRequest(c, difficulty, history, lang)).value;
      var local := LocalItem(lang, c, v);
      r.difficulty == difficulty
      && (data.question.Some? && data.question.value != "" ==> r.question == data.question.value)
      && (data.question.None? || data.question.value == "" ==> r.question == local.q)
      && (data.answer.Some? && data.answer.value != "" ==> r.answer == data.answer.value)
      && (data.answer.None? || data.answer.value == "" ==> r.answer == local.a)
      && (data.explanation.Some? && data.explanation.value != "" ==> r.explanation == data.explanation)
      && (data.explanation.None? || data.explanation.value == "" ==> r.explanation == Some(""))
  {
  }

  /** Online but failed: the local item with the "connection failed" note
      and Medium. */
  lemma FetchFailure(categories: seq<Category>, difficulty: Difficulty, history: seq<string>,
                     lang: Language, u: real, v: real, remote: Remote)
    requires 0.0 <= u < 1.0 && 0.0 <= v < 1.0
    requires remote(BuildRequest(ResolveCategory(categories, u), difficulty, history, lang)).None?
    ensures var r, local := FetchQuestion(categories, difficulty, history, lang, u, v, true, remote),
                            LocalItem(lang, ResolveCategory(categories, u), v);
      r.question == local.q && r.answer == local.a
      && r.explanation == Some(FailureNote(lang)) && r.difficulty == Medium
  {
  }
}

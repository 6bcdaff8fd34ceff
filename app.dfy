/** The game session of App.tsx: the participant list, the wheel state and
    one question round at a time. React state becomes the fields of
    `Session`; the timers become explicit events (`SpinComplete` for the 5 s
    spin timeout, `FetchDue` for the 2.5 s follow-up, `Tick` for the 1 s
    countdown interval). */
module App {
  import opened Wrappers
  import opened Types
  import Js
  import Wheel
  import Questions
  import Resolver

  /** The palette new participants cycle through. */
  const Colors: seq<string> :=
    ["#d4af37", "#f59e0b", "#92400e", "#7c3aed", "#6366f1", "#10b981", "#ef4444", "#3b82f6"]

  /** Every palette entry is a colour the wheel's shading helper accepts. */
  lemma ColorsWellFormed(k: nat)
    requires k < |Colors|
    ensures Wheel.IsHexColor(Colors[k]) && Wheel.IsLowerHexColor(Colors[k])
  {
    var c := Colors[k];
    assert |c| == 7 && c[0] == '#';
    forall i | 1 <= i < 7 ensures Wheel.IsLowerHexDigit(c[i]) {
    }
  }

  /** The invariant the game keeps for every listed participant. */
  predicate WellFormed(p: Participant) {
    p.score >= 0 && Wheel.IsHexColor(p.color)
  }

  predicate AllWellFormed(ps: seq<Participant>) {
    forall k :: 0 <= k < |ps| ==> WellFormed(ps[k])
  }

  // ---------------------------------------------------------------------
  // The list transforms behind the handlers

  /** The entry `handleAddParticipant` appends to a list of `count` entries. */
  function NewParticipant(id: string, name: string, count: nat): (p: Participant)
    ensures WellFormed(p) && p.score == 0
    ensures p.color == Colors[count % |Colors|] && p.name == Js.Trim(name)
  {
    ColorsWellFormed(count % |Colors|);
    Participant(id, Js.Trim(name), Colors[count % |Colors|], 0)
  }

  /** Appending a well-formed entry keeps the list well formed. */
  lemma AppendKeepsWellFormed(ps: seq<Participant>, p: Participant)
    requires AllWellFormed(ps) && WellFormed(p)
    ensures AllWellFormed(ps + [p])
  {
    forall k | 0 <= k < |ps| + 1 ensures WellFormed((ps + [p])[k]) {
      if k < |ps| {
        assert (ps + [p])[k] == ps[k];
      }
    }
  }

  /** `ps.filter(p => p.id !== id)`. */
  function RemoveId(ps: seq<Participant>, id: string): (r: seq<Participant>)
    ensures |r| <= |ps|
    ensures forall k :: 0 <= k < |r| ==> r[k].id != id && r[k] in ps
    ensures forall p :: p in ps && p.id != id ==> p in r
  {
    if ps == [] then []
    else if ps[0].id == id then RemoveId(ps[1..], id)
    else [ps[0]] + RemoveId(ps[1..], id)
  }

  /** Removing an id nobody has leaves the list as it is; in particular
      removing twice is removing once. */
  lemma {:induction false} RemoveAbsentId(ps: seq<Participant>, id: string)
    requires forall k :: 0 <= k < |ps| ==> ps[k].id != id
    ensures RemoveId(ps, id) == ps
  {
    if ps != [] {
      RemoveAbsentId(ps[1..], id);
    }
  }

  /** Number of entries whose id is `id`. */
  function CountId(ps: seq<Participant>, id: string): (c: nat)
    ensures c <= |ps|
  {
    if ps == [] then 0 else (if ps[0].id == id then 1 else 0) + CountId(ps[1..], id)
  }

  /** Exactly the matching entries are taken out. */
  lemma {:induction false} RemoveIdCount(ps: seq<Participant>, id: string)
    ensures |RemoveId(ps, id)| == |ps| - CountId(ps, id)
  {
    if ps != [] {
      RemoveIdCount(ps[1..], id);
    }
  }

  /** The filter works piecewise, so the survivors keep their relative order. */
  lemma {:induction false} RemoveIdAppend(a: seq<Participant>, b: seq<Participant>, id: string)
    ensures RemoveId(a + b, id) == RemoveId(a, id) + RemoveId(b, id)
  {
    if a != [] {
      assert (a + b)[1..] == a[1..] + b;
      RemoveIdAppend(a[1..], b, id);
    } else {
      assert a + b == b;
    }
  }

  lemma RemoveKeepsWellFormed(ps: seq<Participant>, id: string)
    requires AllWellFormed(ps)
    ensures AllWellFormed(RemoveId(ps, id))
  {
    var r := RemoveId(ps, id);
    forall k | 0 <= k < |r| ensures WellFormed(r[k]) {
      assert r[k] in ps;
    }
  }

  /** The score clamp of `updateScore`. */
  function ClampScore(score: int, amount: int): (s: int)
    ensures s >= 0
    ensures score + amount >= 0 ==> s == score + amount
    ensures score + amount < 0 ==> s == 0
  {
    if score + amount > 0 then score + amount else 0
  }

  /** `ps.map(p => p.id === id ? {...p, score: max(0, p.score + amount)} : p)`. */
  function ApplyScore(ps: seq<Participant>, id: string, amount: int): (r: seq<Participant>)
    ensures |r| == |ps|
    ensures forall k :: 0 <= k < |ps| && ps[k].id != id ==> r[k] == ps[k]
    ensures forall k :: 0 <= k < |ps| && ps[k].id == id ==> r[k] == ps[k].(score := ClampScore(ps[k].score, amount))
  {
    seq(|ps|, k requires 0 <= k < |ps| =>
      if ps[k].id == id then ps[k].(score := ClampScore(ps[k].score, amount)) else ps[k])
  }

  /** Scoring keeps every entry well formed: in particular no score goes
      below zero, and ids, names and colours stay where they were. */
  lemma ApplyScoreKeepsWellFormed(ps: seq<Participant>, id: string, amount: int)
    requires AllWellFormed(ps)
    ensures AllWellFormed(ApplyScore(ps, id, amount))
    ensures forall k :: 0 <= k < |ps| ==>
      (ApplyScore(ps, id, amount)[k].id == ps[k].id && ApplyScore(ps, id, amount)[k].name == ps[k].name
       && ApplyScore(ps, id, amount)[k].color == ps[k].color)
  {
  }

  /** A penalty on a player already at zero changes nothing, so repeated
      penalties from zero leave the score at zero. */
  lemma PenaltyAtZero(ps: seq<Participant>, id: string, amount: int)
    requires amount <= 0
    requires forall k :: 0 <= k < |ps| && ps[k].id == id ==> ps[k].score == 0
    ensures ApplyScore(ps, id, amount) == ps
  {
    var r := ApplyScore(ps, id, amount);
    forall k | 0 <= k < |ps| ensures r[k] == ps[k] {
      if ps[k].id == id {
        assert ClampScore(0, amount) == 0;
      }
    }
  }

  /** `b.score - a.score` ordering: `p` goes before every entry whose score
      is not higher, i.e. after the strictly higher ones. */
  function Insert(p: Participant, s: seq<Participant>): (r: seq<Participant>)
    ensures multiset(r) == multiset(s) + multiset{p}
  {
    if s == [] || p.score >= s[0].score then [p] + s
    else
      assert s == [s[0]] + s[1..];
      [s[0]] + Insert(p, s[1..])
  }

  predicate SortedByScoreDesc(s: seq<Participant>) {
    forall i, j :: 0 <= i < j < |s| ==> s[i].score >= s[j].score
  }

  /** The leaderboard order: highest score first. */
  function SortByScoreDesc(s: seq<Participant>): (r: seq<Participant>)
    ensures multiset(r) == multiset(s)
  {
    if s == [] then []
    else
      assert s == [s[0]] + s[1..];
      Insert(s[0], SortByScoreDesc(s[1..]))
  }

  lemma {:induction false} InsertSorted(p: Participant, s: seq<Participant>)
    requires SortedByScoreDesc(s)
    ensures SortedByScoreDesc(Insert(p, s))
  {
    if s != [] && p.score < s[0].score {
      var t := Insert(p, s[1..]);
      InsertSorted(p, s[1..]);
      // the head of `t` is `p` or `s[1]`, both scoring at most `s[0]`
      assert t[0] == p || t[0] == s[1];
      var r := Insert(p, s);
      assert r == [s[0]] + t;
      forall i, j | 0 <= i < j < |r| ensures r[i].score >= r[j].score {
        if i > 0 {
          assert r[i] == t[i - 1] && r[j] == t[j - 1];
        } else {
          assert r[j] == t[j - 1];
          assert t[0].score >= t[j - 1].score;
        }
      }
    }
  }

  /** The leaderboard sort puts scores in non-increasing order and only
      permutes the list. */
  lemma {:induction false} SortByScoreDescCorrect(s: seq<Participant>)
    ensures SortedByScoreDesc(SortByScoreDesc(s))
    ensures multiset(SortByScoreDesc(s)) == multiset(s) && |SortByScoreDesc(s)| == |s|
  {
    if s != [] {
      SortByScoreDescCorrect(s[1..]);
      InsertSorted(s[0], SortByScoreDesc(s[1..]));
    }
    assert |multiset(SortByScoreDesc(s))| == |multiset(s)|;
  }

  lemma SortKeepsWellFormed(s: seq<Participant>)
    requires AllWellFormed(s)
    ensures AllWellFormed(SortByScoreDesc(s))
  {
    var r := SortByScoreDesc(s);
    forall k | 0 <= k < |r| ensures WellFormed(r[k]) {
      assert r[k] in multiset(r);
      assert r[k] in s;
    }
  }

  // ---------------------------------------------------------------------
  // The session

  /** What the spin's closure captured for the question it will ask for. */
  datatype FetchContext = FetchContext(category: Category, difficulty: Difficulty,
                                       language: Language, history: seq<string>)

  /** The 5 s timeout a spin schedules: its target rotation and the
      participant array its closure holds. */
  datatype PendingSpin = PendingSpin(target: real, snapshot: seq<Participant>, ctx: FetchContext)

  /** The 2.5 s timeout a finished spin schedules for its winner. */
  datatype PendingFetch = PendingFetch(winner: Participant, ctx: FetchContext)

  /** The round on screen: the winner (a copy taken at spin time) and the question. */
  datatype RoundResult = RoundResult(winner: Participant, question: QuestionData)

  /** Seconds on the countdown when a question arrives. */
  const QuestionSeconds: int := 25

  class Session {
    var participants: seq<Participant>
    var rotation: real
    var isSpinning: bool
    var currentWinner: Option<Participant>
    var result: Option<RoundResult>
    var showAnswer: bool
    var timeLeft: int
    var timerActive: bool
    var history: seq<string>
    /** Scheduled, not yet fired timeouts. */
    var spinTimer: Option<PendingSpin>
    var fetchTimers: seq<PendingFetch>
    /** Whether the pending spin's closure still holds the very array that
        is the current list. Adding, deleting and scoring build new arrays;
        the leaderboard sorts the array in place. */
    var snapshotShared: bool

    ghost predicate Valid()
      reads this
      ensures Valid() ==> 0 <= timeLeft <= QuestionSeconds
      ensures Valid() ==> forall k :: 0 <= k < |participants| ==> participants[k].score >= 0
    {
      AllWellFormed(participants)
      && rotation >= 0.0
      && 0 <= timeLeft <= QuestionSeconds
      && (timerActive ==> timeLeft > 0)
      && (isSpinning <==> spinTimer.Some?)
      && (spinTimer.Some? ==> spinTimer.value.target == rotation && |spinTimer.value.snapshot| >= 2)
      && (spinTimer.Some? && snapshotShared ==> spinTimer.value.snapshot == participants)
    }

    /** The state a fresh game starts in. */
    constructor ()
      ensures Valid()
      ensures participants == [] && rotation == 0.0 && !isSpinning
      ensures currentWinner == None && result == None && !showAnswer
      ensures timeLeft == 0 && !timerActive && history == []
      ensures spinTimer == None && fetchTimers == [] && !snapshotShared
    {
      participants := [];
      rotation := 0.0;
      isSpinning := false;
      currentWinner := None;
      result := None;
      showAnswer := false;
      timeLeft := 0;
      timerActive := false;
      history := [];
      spinTimer := None;
      fetchTimers := [];
      snapshotShared := false;
    }

    /** `handleAddParticipant` with the input field holding `name`; `id` is
        the random id the source draws. */
    method AddParticipant(name: string, id: string)
      requires Valid()
      modifies this`participants, this`snapshotShared
      ensures Valid()
      ensures Js.Trim(name) == [] ==>
        participants == old(participants) && snapshotShared == old(snapshotShared)
      ensures Js.Trim(name) != [] ==>
        participants == old(participants) + [NewParticipant(id, name, |old(participants)|)]
        && !snapshotShared
    {
      if Js.Trim(name) == [] {
        return;
      }
      var p := NewParticipant(id, name, |participants|);
      AppendKeepsWellFormed(participants, p);
      participants := participants + [p];
      snapshotShared := false;
    }

    /** `handleDeleteParticipant` with `selectedId` chosen in the picker
        ("" when nothing is chosen). */
    method DeleteParticipant(selectedId: string)
      requires Valid()
      modifies this`participants, this`snapshotShared
      ensures Valid()
      ensures selectedId == "" ==>
        participants == old(participants) && snapshotShared == old(snapshotShared)
      ensures selectedId != "" ==>
        participants == RemoveId(old(participants), selectedId) && !snapshotShared
    {
      if selectedId == "" {
        return;
      }
      RemoveKeepsWellFormed(participants, selectedId);
      participants := RemoveId(participants, selectedId);
      snapshotShared := false;
    }

    /** `spin`. `u` is the `Math.random()` draw; the category, difficulty
        and language are the selections the closure captures. */
    method Spin(u: real, category: Category, difficulty: Difficulty, language: Language)
      requires Valid() && 0.0 <= u < 1.0
      modifies this`isSpinning, this`currentWinner, this`result, this`showAnswer,
               this`rotation, this`spinTimer, this`snapshotShared
      ensures Valid()
      ensures |participants| < 2 || old(isSpinning) ==>
        isSpinning == old(isSpinning) && rotation == old(rotation) && currentWinner == old(currentWinner)
        && result == old(result) && showAnswer == old(showAnswer) && spinTimer == old(spinTimer)
        && snapshotShared == old(snapshotShared)
      ensures |participants| >= 2 && !old(isSpinning) ==>
        isSpinning && currentWinner == None && result == None && !showAnswer
        && rotation == Resolver.SpinTarget(old(rotation), u)
        && 5040.0 <= rotation - old(rotation) < 5400.0
        && spinTimer == Some(PendingSpin(rotation, participants,
                                         FetchContext(category, difficulty, language, history)))
        && snapshotShared
    {
      if |participants| < 2 || isSpinning {
        return;
      }
      isSpinning := true;
      currentWinner := None;
      result := None;
      showAnswer := false;
      var newRot := Resolver.SpinTarget(rotation, u);
      rotation := newRot;
      spinTimer := Some(PendingSpin(newRot, participants,
                                    FetchContext(category, difficulty, language, history)));
      snapshotShared := true;
    }

    /** The spin's 5 s timeout fires: the pointer picks a winner from the
        array the spin's closure holds, and the question fetch is
        scheduled. */
    method SpinComplete() returns (winner: Participant)
      requires Valid() && isSpinning
      modifies this`isSpinning, this`currentWinner, this`spinTimer, this`fetchTimers
      ensures Valid()
      ensures var pending := old(spinTimer).value;
        winner == pending.snapshot[Resolver.WinnerIndex(pending.target, |pending.snapshot|)]
        && winner in pending.snapshot
        && currentWinner == Some(winner) && !isSpinning && spinTimer == None
        && fetchTimers == old(fetchTimers) + [PendingFetch(winner, pending.ctx)]
    {
      var pending := spinTimer.value;
      var index := Resolver.WinnerIndex(pending.target, |pending.snapshot|);
      winner := pending.snapshot[index];
      currentWinner := Some(winner);
      isSpinning := false;
      spinTimer := None;
      fetchTimers := fetchTimers + [PendingFetch(winner, pending.ctx)];
    }

    /** The oldest 2.5 s follow-up fires: `handleAutoFetchQuestion`. The
        question comes from `fetchQuestion` with the captured selections and
        history; `u`, `v`, `online` and `remote` are its oracles. */
    method FetchDue(u: real, v: real, online: bool, remote: Questions.Remote)
      requires Valid() && fetchTimers != []
      requires 0.0 <= u < 1.0 && 0.0 <= v < 1.0
      modifies this`result, this`history, this`timeLeft, this`timerActive, this`fetchTimers
      ensures Valid()
      ensures var f := old(fetchTimers)[0];
        var q := Questions.FetchQuestion([f.ctx.category], f.ctx.difficulty, f.ctx.history,
                                         f.ctx.language, u, v, online, remote);
        result == Some(RoundResult(f.winner, q))
        && history == old(history) + [q.question]
        && timeLeft == QuestionSeconds && timerActive
        && fetchTimers == old(fetchTimers)[1..]
    {
      var f := fetchTimers[0];
      var q := Questions.FetchQuestion([f.ctx.category], f.ctx.difficulty, f.ctx.history,
                                       f.ctx.language, u, v, online, remote);
      result := Some(RoundResult(f.winner, q));
      history := history + [q.question];
      timeLeft := QuestionSeconds;
      timerActive := true;
      fetchTimers := fetchTimers[1..];
    }

    /** One second of the countdown: the interval decrements while the
        timer runs and time is left; the effect that follows stops the timer
        and reveals the answer once the count is at zero. */
    method Tick()
      requires Valid()
      modifies this`timeLeft, this`timerActive, this`showAnswer
      ensures Valid()
      ensures old(timerActive) && old(timeLeft) > 1 ==>
        timeLeft == old(timeLeft) - 1 && timerActive && showAnswer == old(showAnswer)
      ensures old(timerActive) && old(timeLeft) == 1 ==>
        timeLeft == 0 && !timerActive && showAnswer
      ensures !old(timerActive) ==>
        timeLeft == old(timeLeft) && !timerActive && showAnswer == old(showAnswer)
    {
      if timerActive && timeLeft > 0 {
        timeLeft := timeLeft - 1;
      }
      if timeLeft == 0 && timerActive {
        timerActive := false;
        showAnswer := true;
      }
    }

    /** `updateScore(participantId, amount)`, used by the "correct" button. */
    method UpdateScore(participantId: string, amount: int)
      requires Valid()
      modifies this`participants, this`result, this`currentWinner, this`showAnswer, this`timerActive,
               this`snapshotShared
      ensures Valid()
      ensures participants == ApplyScore(old(participants), participantId, amount) && !snapshotShared
      ensures result == None && currentWinner == None && !showAnswer && !timerActive
    {
      ApplyScoreKeepsWellFormed(participants, participantId, amount);
      participants := ApplyScore(participants, participantId, amount);
      result := None;
      currentWinner := None;
      showAnswer := false;
      timerActive := false;
      snapshotShared := false;
    }

    /** The "wrong" button: it clears the round and the winner only; scores,
        the revealed answer and the timer are left as they are. */
    method MarkWrong()
      requires Valid()
      modifies this`result, this`currentWinner
      ensures Valid()
      ensures result == None && currentWinner == None
    {
      result := None;
      currentWinner := None;
    }

    /** Opening the leaderboard sorts the participant array itself,
        highest score first. When a pending spin's closure holds that same
        array, the spin's list is sorted too, and its timeout indexes the
        sorted order. The canvas redraw is not modelled. */
    method ShowLeaderboard()
      requires Valid()
      modifies this`participants, this`spinTimer
      ensures Valid()
      ensures participants == SortByScoreDesc(old(participants))
      ensures old(spinTimer).Some? && snapshotShared ==>
        spinTimer == Some(old(spinTimer).value.(snapshot := SortByScoreDesc(old(spinTimer).value.snapshot)))
      ensures old(spinTimer).None? || !snapshotShared ==> spinTimer == old(spinTimer)
    {
      SortKeepsWellFormed(participants);
      SortByScoreDescCorrect(participants);
      participants := SortByScoreDesc(participants);
      if spinTimer.Some? && snapshotShared {
        spinTimer := Some(spinTimer.value.(snapshot := participants));
      }
    }
  }

  /** A fresh game with two players added under non-blank names. */
  method TwoPlayers(first: string, second: string) returns (s: Session)
    requires Js.Trim(first) != [] && Js.Trim(second) != []
    ensures fresh(s) && s.Valid()
    ensures |s.participants| == 2 && !s.isSpinning && s.history == [] && s.fetchTimers == []
  {
    s := new Session();
    s.AddParticipant(first, "a1");
    s.AddParticipant(second, "b2");
  }

  /** A spin of a valid game with two or more players, and its timeout:
      afterwards exactly one question fetch is pending. */
  method SpinToWinner(s: Session, u: real, category: Category, difficulty: Difficulty, language: Language)
    returns (winner: Participant)
    requires s.Valid() && |s.participants| >= 2 && !s.isSpinning && s.fetchTimers == []
    requires 0.0 <= u < 1.0
    modifies s
    ensures s.Valid() && !s.isSpinning && !s.showAnswer && s.currentWinner == Some(winner)
    ensures |s.fetchTimers| == 1 && s.fetchTimers[0].winner == winner
    ensures s.history == old(s.history) && s.participants == old(s.participants)
  {
    s.Spin(u, category, difficulty, language);
    winner := s.SpinComplete();
  }

  /** The leaderboard opened while the wheel turns: the spin's closure
      holds the array the leaderboard sorts, so the winner is taken from
      the sorted list at the pointer's index. */
  method LeaderboardDuringSpin(s: Session, u: real, category: Category, difficulty: Difficulty,
                               language: Language)
    returns (winner: Participant)
    requires s.Valid() && |s.participants| >= 2 && !s.isSpinning
    requires 0.0 <= u < 1.0
    modifies s
    ensures s.Valid() && !s.isSpinning && s.currentWinner == Some(winner)
    ensures s.rotation == Resolver.SpinTarget(old(s.rotation), u)
    ensures s.participants == SortByScoreDesc(old(s.participants))
    ensures |s.participants| == |old(s.participants)|
    ensures winner == s.participants[Resolver.WinnerIndex(s.rotation, |s.participants|)]
  {
    s.Spin(u, category, difficulty, language);
    s.ShowLeaderboard();
    SortByScoreDescCorrect(old(s.participants));
    winner := s.SpinComplete();
  }

  /** Two players in ascending score order are swapped by the sort. */
  lemma SortSwapsTwo(x: Participant, y: Participant)
    requires x.score < y.score
    ensures SortByScoreDesc([x, y]) == [y, x]
  {
    assert [x, y][1..] == [y];
    assert SortByScoreDesc([y]) == [y];
  }

  /** From rest, the draw 0.5 lands the pointer in the first of two slices. */
  lemma HalfDrawFromRest()
    ensures Resolver.SpinTarget(0.0, 0.5) == 5220.0
    ensures Resolver.WinnerIndex(5220.0, 2) == 0
  {
    assert Js.Rem360(5220.0) == 180.0;
    assert Js.Rem360(450.0) == 90.0;
  }

  /** Two players, the second ahead on points, a spin from rest with the
      draw 0.5, and the leaderboard opened before the wheel stops: the
      pointer's index is 0, which held the trailing player when the spin
      began, and the sorted array puts the leader there. */
  method LeaderboardPicksLeader(s: Session) returns (winner: Participant)
    requires s.Valid() && !s.isSpinning && s.rotation == 0.0
    requires |s.participants| == 2 && s.participants[0].score < s.participants[1].score
    modifies s
    ensures winner == old(s.participants[1])
    ensures old(s.participants[Resolver.WinnerIndex(Resolver.SpinTarget(0.0, 0.5), 2)])
            == old(s.participants[0])
  {
    var before := s.participants;
    SortSwapsTwo(before[0], before[1]);
    assert before == [before[0], before[1]];
    HalfDrawFromRest();
    winner := LeaderboardDuringSpin(s, 0.5, Random, Medium, En);
  }

  /** The follow-up of a finished spin: a round is on screen, its question
      is recorded once more in the history, and the countdown runs from the
      top. */
  method AskQuestion(s: Session, v: real, w: real, online: bool, remote: Questions.Remote)
    requires s.Valid() && s.fetchTimers != [] && !s.showAnswer
    requires 0.0 <= v < 1.0 && 0.0 <= w < 1.0
    modifies s
    ensures s.Valid() && s.result.Some? && !s.showAnswer
    ensures s.timerActive && s.timeLeft == QuestionSeconds
    ensures |s.history| == |old(s.history)| + 1
  {
    s.FetchDue(v, w, online, remote);
  }

  /** Two players, one spin, its winner and the question that follows. */
  method StartRound(first: string, second: string, u: real, v: real, w: real,
                    online: bool, remote: Questions.Remote)
    returns (s: Session)
    requires Js.Trim(first) != [] && Js.Trim(second) != []
    requires 0.0 <= u < 1.0 && 0.0 <= v < 1.0 && 0.0 <= w < 1.0
    ensures fresh(s) && s.Valid()
    ensures s.timerActive && s.timeLeft == QuestionSeconds && !s.showAnswer
    ensures s.result.Some? && |s.history| == 1
  {
    s := TwoPlayers(first, second);
    var winner := SpinToWinner(s, u, Random, Medium, Ar);
    AskQuestion(s, v, w, online, remote);
  }

  /** A whole round in which nobody reveals the answer by hand: after 25
      ticks the answer is shown, the timer is stopped, and the question has
      been recorded in the history. */
  method RoundAutoReveals(first: string, second: string, u: real, v: real, w: real,
                          online: bool, remote: Questions.Remote)
    returns (revealed: bool, recorded: nat)
    requires Js.Trim(first) != [] && Js.Trim(second) != []
    requires 0.0 <= u < 1.0 && 0.0 <= v < 1.0 && 0.0 <= w < 1.0
    ensures revealed && recorded == 1
  {
    var s := StartRound(first, second, u, v, w, online, remote);
    var i := 0;
    while i < QuestionSeconds
      invariant 0 <= i <= QuestionSeconds
      invariant s.Valid()
      invariant i < QuestionSeconds ==> s.timerActive && s.timeLeft == QuestionSeconds - i
      invariant i == QuestionSeconds ==> s.showAnswer && !s.timerActive
      invariant |s.history| == 1
    {
      s.Tick();
      i := i + 1;
    }
    revealed := s.showAnswer && !s.timerActive;
    recorded := |s.history|;
  }
}

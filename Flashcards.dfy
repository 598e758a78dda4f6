/** The flashcard session of one page of vocabulary: a cursor over the cards,
    three session counters, a completed flag and a level-graduated flag. The
    transitions are first given as functions on a `Session` value (so that
    whole runs of user actions can be reasoned about), then the component
    itself as a class whose handlers update its fields in place and are proved
    to follow those functions. */
module Flashcards {

  import opened Wrappers
  import opened SearchParams
  import AudioSource

  /** The three answer buttons. */
  datatype Status = New | Learning | Mastered

  datatype SessionStats = SessionStats(known: nat, unsure: nat, unknown: nat)

  /** The answers the counters hold: since every answer raises exactly one
      counter, this is the number of answers since the last restart. */
  function Answered(stats: SessionStats): nat
  {
    stats.known + stats.unsure + stats.unknown
  }

  /** The counter an answer goes to: mastered to `known`, learning to
      `unsure`, new to `unknown`; exactly that one goes up by one. */
  function Bump(stats: SessionStats, status: Status): (r: SessionStats)
    ensures r.known == stats.known + (if status == Mastered then 1 else 0)
    ensures r.unsure == stats.unsure + (if status == Learning then 1 else 0)
    ensures r.unknown == stats.unknown + (if status == New then 1 else 0)
    ensures Answered(r) == Answered(stats) + 1
  {
    match status
    case Mastered => stats.(known := stats.known + 1)
    case Learning => stats.(unsure := stats.unsure + 1)
    case New => stats.(unknown := stats.unknown + 1)
  }

  datatype Card = Card(id: string, audioUrl: Option<string>)

  /** The component's props. */
  datatype Props = Props(vocabulary: seq<Card>, hskLevel: int, currentPage: int, totalPages: int)

  datatype Session = Session(currentIndex: int, stats: SessionStats, isCompleted: bool,
                             direction: int, isLevelGraduated: bool)

  const InitialSession: Session := Session(0, SessionStats(0, 0, 0), false, 0, false)

  /** `goToNextCard`: move on, or finish the page (and the level when this is
      its last page). */
  function NextCardState(p: Props, s: Session): (r: Session)
    ensures r.stats == s.stats
  {
    if s.currentIndex < |p.vocabulary| - 1 then
      s.(direction := 1, currentIndex := s.currentIndex + 1)
    else
      s.(isLevelGraduated := if p.currentPage == p.totalPages then true else s.isLevelGraduated,
         isCompleted := true)
  }

  /** `goToPrevCard`: step back unless on the first card. */
  function PrevCardState(p: Props, s: Session): (r: Session)
    ensures r.stats == s.stats && r.isCompleted == s.isCompleted
  {
    if s.currentIndex > 0 then s.(direction := -1, currentIndex := s.currentIndex - 1) else s
  }

  /** `handleNext(status)`: count the answer, then `goToNextCard`. */
  function AnswerState(p: Props, s: Session, status: Status): (r: Session)
    ensures r.stats == Bump(s.stats, status)
  {
    NextCardState(p, s.(stats := Bump(s.stats, status)))
  }

  /** The status write `handleNext` requests for the card on screen (none when
      the index points at no card). */
  datatype StatusWrite = StatusWrite(cardId: string, status: Status)

  function StatusWriteFor(p: Props, s: Session, status: Status): (r: Option<StatusWrite>)
    ensures r.Some? <==> 0 <= s.currentIndex < |p.vocabulary|
    ensures r.Some? ==> r.value == StatusWrite(p.vocabulary[s.currentIndex].id, status)
  {
    if 0 <= s.currentIndex < |p.vocabulary| then Some(StatusWrite(p.vocabulary[s.currentIndex].id, status))
    else None
  }

  /** `handleRestart` */
  function RestartState(): Session
  {
    InitialSession
  }

  /** What a drag that ends at horizontal offset `offset` does. */
  datatype Swipe = SwipeNext | SwipePrev | NoSwipe

  function SwipeOf(offset: real): (r: Swipe)
    ensures r == SwipeNext <==> offset < -50.0
    ensures r == SwipePrev <==> offset > 50.0
    ensures r == NoSwipe <==> -50.0 <= offset <= 50.0
  {
    if offset < -50.0 then SwipeNext else if offset > 50.0 then SwipePrev else NoSwipe
  }

  /** `handleDragEnd`: a swipe calls `goToNextCard` or `goToPrevCard`
      directly, so it records no answer. */
  function DragEndState(p: Props, s: Session, offset: real): (r: Session)
    ensures r.stats == s.stats
  {
    match SwipeOf(offset)
    case SwipeNext => NextCardState(p, s)
    case SwipePrev => PrevCardState(p, s)
    case NoSwipe => s
  }

  /** A tap flips the card only when the card has not been dragged 10 or more
      pixels away. */
  function Tap(isFlipped: bool, dragX: real): (r: bool)
    ensures r != isFlipped <==> -10.0 < dragX < 10.0
  {
    if (if dragX < 0.0 then -dragX else dragX) < 10.0 then !isFlipped else isFlipped
  }

  /** The card screen: the page is not completed and the cursor is on a card. */
  predicate CardShown(p: Props, s: Session)
  {
    !s.isCompleted && 0 <= s.currentIndex < |p.vocabulary|
  }

  /** Whether the card on screen is flipped after a step from `s` to `t`. The
      card item is keyed by `currentIndex` and holds `isFlipped` in its own
      state, which starts `false`: it keeps its flip only when a card is on
      screen before and after the step at the same index; otherwise a new item
      mounts face up. */
  function FlippedAfter(p: Props, s: Session, t: Session, flipped: bool): bool
  {
    flipped && CardShown(p, s) && CardShown(p, t) && t.currentIndex == s.currentIndex
  }

  /** The user actions of a session. */
  datatype Action = Answer(status: Status) | Drag(offset: real) | Restart

  function Step(p: Props, s: Session, a: Action): Session
  {
    match a
    case Answer(status) => AnswerState(p, s, status)
    case Drag(offset) => DragEndState(p, s, offset)
    case Restart => RestartState()
  }

  /** The session after a sequence of actions. */
  function Run(p: Props, s: Session, actions: seq<Action>): Session
  {
    if actions == [] then s
    else Step(p, Run(p, s, actions[..|actions| - 1]), actions[|actions| - 1])
  }

  /** What the screen offers: the completion screen has the restart button
      (and links away); the card screen, shown only while a card is at the
      cursor, has the answer buttons and the draggable card. */
  predicate Offered(p: Props, s: Session, a: Action)
  {
    if s.isCompleted then a.Restart?
    else CardShown(p, s) && !a.Restart?
  }

  /** Of the actions a screen offers, only a drag that is not a swipe, or a
      swipe back on the first card, keeps the card's flip: every answer and
      every other swipe leaves a card face up, or the completion screen. */
  lemma FlipSurvivesOnlyStill(p: Props, s: Session, a: Action, flipped: bool)
    requires Offered(p, s, a)
    ensures FlippedAfter(p, s, Step(p, s, a), flipped) <==>
              && flipped && a.Drag?
              && (SwipeOf(a.offset) == NoSwipe || (SwipeOf(a.offset) == SwipePrev && s.currentIndex == 0))
  {
  }

  /** Holds after any sequence of handler calls: the cursor is on a card (or
      at 0 for an empty page), `direction` is -1, 0 or 1, and graduation comes
      only with completing the last page. */
  ghost predicate ValidSession(p: Props, s: Session)
  {
    && 0 <= s.currentIndex
    && (s.currentIndex == 0 || s.currentIndex < |p.vocabulary|)
    && -1 <= s.direction <= 1
    && (s.isLevelGraduated ==> s.isCompleted && p.currentPage == p.totalPages)
  }

  /** Holds along what the screen offers: a completed page was completed on
      its last card, and it graduated exactly when it is the last page. */
  ghost predicate Shown(p: Props, s: Session)
  {
    && ValidSession(p, s)
    && (s.isCompleted ==> s.currentIndex == |p.vocabulary| - 1
                          && (s.isLevelGraduated <==> p.currentPage == p.totalPages))
  }

  /** Advancing from a card that is not the last moves to the next card,
      forwards, and does not complete the page. */
  lemma AdvanceFromInnerCard(p: Props, s: Session)
    requires 0 <= s.currentIndex < |p.vocabulary| - 1
    ensures var r := NextCardState(p, s);
            r.currentIndex == s.currentIndex + 1 && r.direction == 1
            && r.isCompleted == s.isCompleted && r.isLevelGraduated == s.isLevelGraduated
  {
  }

  /** Advancing from the last card keeps the cursor and completes the page; a
      session that had not graduated graduates exactly when this is the
      level's last page. */
  lemma AdvanceFromLastCard(p: Props, s: Session)
    requires s.currentIndex >= |p.vocabulary| - 1
    ensures var r := NextCardState(p, s);
            r.currentIndex == s.currentIndex && r.isCompleted && r.direction == s.direction
            && (!s.isLevelGraduated ==> (r.isLevelGraduated <==> p.currentPage == p.totalPages))
  {
  }

  /** Going back moves one card backwards when there is one, and otherwise
      changes nothing. */
  lemma BackTransitions(p: Props, s: Session)
    ensures s.currentIndex > 0 ==>
              PrevCardState(p, s) == s.(currentIndex := s.currentIndex - 1, direction := -1)
    ensures s.currentIndex <= 0 ==> PrevCardState(p, s) == s
  {
  }

  lemma StepKeepsValid(p: Props, s: Session, a: Action)
    requires ValidSession(p, s)
    ensures ValidSession(p, Step(p, s, a))
  {
  }

  /** Whatever the handlers are called with, the cursor stays on a card:
      within 0 .. length - 1 for a non-empty page. */
  lemma {:induction false} RunKeepsValid(p: Props, s: Session, actions: seq<Action>)
    requires ValidSession(p, s)
    ensures ValidSession(p, Run(p, s, actions))
    ensures |p.vocabulary| > 0 ==> 0 <= Run(p, s, actions).currentIndex < |p.vocabulary|
  {
    if actions != [] {
      RunKeepsValid(p, s, actions[..|actions| - 1]);
      StepKeepsValid(p, Run(p, s, actions[..|actions| - 1]), actions[|actions| - 1]);
    }
  }

  /** Every prefix of `actions` ends in a state that offers the next action. */
  ghost predicate AllOffered(p: Props, s: Session, actions: seq<Action>)
  {
    actions == [] ||
    (AllOffered(p, s, actions[..|actions| - 1]) &&
     Offered(p, Run(p, s, actions[..|actions| - 1]), actions[|actions| - 1]))
  }

  lemma OfferedStepKeepsShown(p: Props, s: Session, a: Action)
    requires Shown(p, s) && Offered(p, s, a)
    ensures Shown(p, Step(p, s, a))
  {
  }

  /** Along what the screen offers, starting from the first render, the page
      completes only on its last card and graduates exactly on the level's last
      page. */
  lemma {:induction false} OfferedRunKeepsShown(p: Props, actions: seq<Action>)
    requires AllOffered(p, InitialSession, actions)
    ensures Shown(p, Run(p, InitialSession, actions))
  {
    if actions != [] {
      var prefix := actions[..|actions| - 1];
      OfferedRunKeepsShown(p, prefix);
      OfferedStepKeepsShown(p, Run(p, InitialSession, prefix), actions[|actions| - 1]);
    }
  }

  /** The answers of the given status given since the last restart (or since
      the start). */
  function AnswersSinceRestart(actions: seq<Action>, status: Status): nat
  {
    if actions == [] then 0
    else
      var a := actions[|actions| - 1];
      var before := AnswersSinceRestart(actions[..|actions| - 1], status);
      match a
      case Restart => 0
      case Answer(st) => if st == status then before + 1 else before
      case Drag(_) => before
    }

  /** Each counter is the number of answers of its status since the last
      restart; swipes count nothing. */
  lemma {:induction false} CountersCountAnswers(p: Props, actions: seq<Action>)
    ensures var stats := Run(p, InitialSession, actions).stats;
            && stats.known == AnswersSinceRestart(actions, Mastered)
            && stats.unsure == AnswersSinceRestart(actions, Learning)
            && stats.unknown == AnswersSinceRestart(actions, New)
  {
    if actions != [] {
      var prefix, a := actions[..|actions| - 1], actions[|actions| - 1];
      CountersCountAnswers(p, prefix);
      var s := Run(p, InitialSession, prefix);
      assert Run(p, InitialSession, actions) == Step(p, s, a);
      match a {
        case Restart =>
        case Drag(offset) =>
          assert Step(p, s, a).stats == s.stats;
        case Answer(status) =>
          assert Step(p, s, a).stats == Bump(s.stats, status);
      }
    }
  }

  /** The completion screen's forward links: the next page while pages remain,
      the finish link once the level has graduated. */
  function NextPageOffered(p: Props, s: Session): bool
  {
    s.isCompleted && p.currentPage < p.totalPages && !s.isLevelGraduated
  }

  /** On a completed page reached through the screen, the next-page link is
      offered exactly before the last page and the finish link exactly on it. */
  lemma CompletionLinks(p: Props, s: Session)
    requires Shown(p, s) && s.isCompleted && p.currentPage <= p.totalPages
    ensures NextPageOffered(p, s) <==> p.currentPage < p.totalPages
    ensures s.isLevelGraduated <==> p.currentPage == p.totalPages
  {
  }

  /** The component. Its state fields are updated in place by the handlers. */
  class FlashcardClient {
    const props: Props
    var currentIndex: int
    var sessionStats: SessionStats
    var isCompleted: bool
    var direction: int
    var isLevelGraduated: bool

    function State(): Session
      reads this
    {
      Session(currentIndex, sessionStats, isCompleted, direction, isLevelGraduated)
    }

    ghost predicate Valid()
      reads this
    {
      ValidSession(props, State())
    }

    constructor (props: Props)
      ensures Valid() && this.props == props && State() == InitialSession
    {
      this.props := props;
      currentIndex := 0;
      sessionStats := SessionStats(0, 0, 0);
      isCompleted := false;
      direction := 0;
      isLevelGraduated := false;
    }

    method GoToNextCard()
      requires Valid()
      modifies this
      ensures Valid() && State() == NextCardState(props, old(State()))
      ensures Answered(sessionStats) == old(Answered(sessionStats))
    {
      if currentIndex < |props.vocabulary| - 1 {
        direction := 1;
        currentIndex := currentIndex + 1;
      } else {
        if props.currentPage == props.totalPages {
          isLevelGraduated := true;
        }
        isCompleted := true;
      }
    }

    /** Records the answer, requests the status write for the card on screen
        (returned, not awaited) and moves on. */
    method HandleNext(status: Status) returns (write: Option<StatusWrite>)
      requires Valid()
      modifies this
      ensures Valid() && State() == AnswerState(props, old(State()), status)
      ensures write == StatusWriteFor(props, old(State()), status)
      ensures Answered(sessionStats) == old(Answered(sessionStats)) + 1
    {
      match status {
        case Mastered => sessionStats := sessionStats.(known := sessionStats.known + 1);
        case Learning => sessionStats := sessionStats.(unsure := sessionStats.unsure + 1);
        case New => sessionStats := sessionStats.(unknown := sessionStats.unknown + 1);
      }
      if 0 <= currentIndex < |props.vocabulary| {
        write := Some(StatusWrite(props.vocabulary[currentIndex].id, status));
      } else {
        write := None;
      }
      GoToNextCard();
    }

    method GoToPrevCard()
      requires Valid()
      modifies this
      ensures Valid() && State() == PrevCardState(props, old(State()))
      ensures Answered(sessionStats) == old(Answered(sessionStats))
    {
      if currentIndex > 0 {
        direction := -1;
        currentIndex := currentIndex - 1;
      }
    }

    method HandleRestart()
      modifies this
      ensures Valid() && State() == InitialSession && Answered(sessionStats) == 0
    {
      currentIndex := 0;
      sessionStats := SessionStats(0, 0, 0);
      isCompleted := false;
      direction := 0;
      isLevelGraduated := false;
    }

    /** The card's drag handler, wired to `goToNextCard` and `goToPrevCard`. */
    method HandleDragEnd(offset: real)
      requires Valid()
      modifies this
      ensures Valid() && State() == DragEndState(props, old(State()), offset)
      ensures Answered(sessionStats) == old(Answered(sessionStats))
    {
      if offset < -50.0 {
        GoToNextCard();
      } else if offset > 50.0 {
        GoToPrevCard();
      }
    }

    /** `handlePageChange(page)`: the query pushed is the current one with
        `page` set; every other parameter is kept. */
    method HandlePageChange(searchParams: Query, page: string) returns (target: Query)
      ensures Get(target, "page") == Some(page)
      ensures Named(target, "page") == [Param("page", page)]
      ensures forall m :: m != "page" ==> Named(target, m) == Named(searchParams, m)
    {
      var params := searchParams;
      params := Set(params, "page", page);
      target := params;
    }

    /** `playAudio`: the same source rule as the vocabulary card. */
    method PlayAudio(url: Option<string>) returns (src: Result<string, AudioSource.AudioError>)
      ensures src.Failure? <==> url == None || url == Some("")
      ensures src == AudioSource.ResolveAudioSource(url)
    {
      src := AudioSource.ResolveAudioSource(url);
    }
  }
}

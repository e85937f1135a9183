/**
 * The flashcard viewer: a card list, a cursor and a question/answer flag.
 * The transitions are first stated on values (ViewerState), then the class
 * FlashcardUI updates its three fields in place and is proved to follow them.
 */
module Viewer {
  import opened Types

  /** The three fields of the viewer, as a value. */
  datatype ViewerState = ViewerState(cards: seq<FlashCard>, cursor: nat, revealed: bool)
  {
    /** The cursor points at a card whenever there is one, and is 0 on an empty list. */
    predicate Valid()
    {
      && (cards == [] ==> cursor == 0)
      && (cards != [] ==> cursor < |cards|)
    }
  }

  /** A freshly constructed viewer: no cards, cursor 0, question side. */
  const Initial := ViewerState([], 0, false)

  // ---------------------------------------------------------------------
  // Transitions

  /** setFlashcards: replace the list and go back to the question of the first card. */
  function SetCards(cs: seq<FlashCard>): (r: ViewerState)
    ensures r.Valid()
    ensures r.cards == cs && r.cursor == 0 && !r.revealed
  {
    ViewerState(cs, 0, false)
  }

  /** previousCard: step back one card, showing its question; at the first card nothing changes. */
  function Previous(s: ViewerState): (r: ViewerState)
    ensures r.cards == s.cards
    ensures s.Valid() ==> r.Valid()
    ensures r == s <==> s.cursor == 0
    ensures r != s ==> r.cursor == s.cursor - 1 && !r.revealed
  {
    if s.cursor > 0 then s.(cursor := s.cursor - 1, revealed := false) else s
  }

  /** nextCard: step forward one card, showing its question; at the last card (or with none) nothing changes. */
  function Next(s: ViewerState): (r: ViewerState)
    ensures r.cards == s.cards
    ensures s.Valid() ==> r.Valid()
    ensures r == s <==> s.cursor >= |s.cards| - 1
    ensures s.cards == [] ==> r == s
    ensures r != s ==> r.cursor == s.cursor + 1 && !r.revealed
  {
    if s.cursor < |s.cards| - 1 then s.(cursor := s.cursor + 1, revealed := false) else s
  }

  /** flipCard: toggle between question and answer; the list and the cursor stay. */
  function Flip(s: ViewerState): (r: ViewerState)
    ensures r.cards == s.cards && r.cursor == s.cursor
    ensures r.revealed != s.revealed
    ensures s.Valid() ==> r.Valid()
  {
    s.(revealed := !s.revealed)
  }

  /**
   * addFlashcards: append the new cards. The source resets cursor and flag
   * when the list length after the push equals the number of new cards,
   * which is exactly when the list was empty before.
   */
  function Add(s: ViewerState, newCards: seq<FlashCard>): (r: ViewerState)
    ensures r.cards == s.cards + newCards
    ensures |r.cards| == |s.cards| + |newCards| && r.cards[..|s.cards|] == s.cards
    ensures s.Valid() ==> r.Valid()
    ensures s.cards == [] ==> r.cursor == 0 && !r.revealed
    ensures s.cards != [] ==> r.cursor == s.cursor && r.revealed == s.revealed
  {
    var cards := s.cards + newCards;
    if |cards| == |newCards| then ViewerState(cards, 0, false) else s.(cards := cards)
  }

  /** clear: back to the state of a new viewer. */
  function Cleared(s: ViewerState): (r: ViewerState)
    ensures r.Valid() && r.cards == []
    ensures r == Initial
  {
    ViewerState([], 0, false)
  }

  // ---------------------------------------------------------------------
  // What render shows

  datatype Side = QuestionSide | AnswerSide

  /**
   * The facts render derives from the state: the empty state, or the
   * counter, the card's source, the active side and its text, the tags
   * row and the two disabled buttons.
   */
  datatype View =
    | EmptyState
    | CardView(position: nat, total: nat, source: string, side: Side, text: JsValue,
               tags: seq<Json>, prevDisabled: bool, nextDisabled: bool)

  /** The tags row appears for a tag array with at least one element. */
  function TagRow(tags: JsValue): seq<Json>
  {
    match tags
    case Defined(JArray(items)) => items
    case _ => []
  }

  function Render(s: ViewerState): (v: View)
    requires s.Valid()
    ensures v.EmptyState? <==> s.cards == []
    ensures v.CardView? ==>
      && v.position == s.cursor + 1 && v.total == |s.cards|
      && 1 <= v.position <= v.total
      && v.source == s.cards[s.cursor].source
      && (v.side == AnswerSide <==> s.revealed)
      && v.text == (if s.revealed then s.cards[s.cursor].answer else s.cards[s.cursor].question)
      && v.tags == TagRow(s.cards[s.cursor].tags)
      && (v.prevDisabled <==> s.cursor == 0)
      && (v.nextDisabled <==> s.cursor == |s.cards| - 1)
  {
    if s.cards == [] then EmptyState
    else
      var card := s.cards[s.cursor];
      CardView(s.cursor + 1, |s.cards|, card.source,
               if s.revealed then AnswerSide else QuestionSide,
               if s.revealed then card.answer else card.question,
               TagRow(card.tags), s.cursor == 0, s.cursor == |s.cards| - 1)
  }

  // ---------------------------------------------------------------------
  // Properties of the transitions

  /** Two flips restore the state. */
  lemma FlipTwice(s: ViewerState)
    ensures Flip(Flip(s)) == s
  {
  }

  /** A disabled button is exactly a button whose action changes nothing. */
  lemma DisabledIsNoOp(s: ViewerState)
    requires s.Valid() && s.cards != []
    ensures Render(s).prevDisabled <==> Previous(s) == s
    ensures Render(s).nextDisabled <==> Next(s) == s
  {
  }

  /** Stepping forward and then back returns to the same card, showing its question. */
  lemma NextThenPrevious(s: ViewerState)
    requires s.Valid() && s.cards != [] && !Render(s).nextDisabled
    ensures Previous(Next(s)) == s.(revealed := false)
  {
  }

  /** The state after pressing Next `k` times. */
  function NextTimes(s: ViewerState, k: nat): ViewerState
  {
    if k == 0 then s else Next(NextTimes(s, k - 1))
  }

  /**
   * After loading a list, pressing Next k times (k below the length) shows
   * the question of card k: every card can be reached.
   */
  lemma {:induction false} NextReaches(cs: seq<FlashCard>, k: nat)
    requires k < |cs|
    ensures NextTimes(SetCards(cs), k) == ViewerState(cs, k, false)
  {
    if k > 0 {
      NextReaches(cs, k - 1);
    }
  }

  /** Appending to a non-empty list keeps the card on screen and which side of it is shown. */
  lemma AddKeepsView(s: ViewerState, newCards: seq<FlashCard>)
    requires s.Valid() && s.cards != []
    ensures Render(Add(s, newCards)).CardView?
    ensures Render(Add(s, newCards)).source == Render(s).source
    ensures Render(Add(s, newCards)).text == Render(s).text
    ensures Render(Add(s, newCards)).side == Render(s).side
    ensures Render(Add(s, newCards)).position == Render(s).position
  {
    assert Add(s, newCards).cards[s.cursor] == s.cards[s.cursor];
  }

  // ---------------------------------------------------------------------
  // The viewer object

  class FlashcardUI {
    var flashcards: seq<FlashCard>
    var currentIndex: nat
    var showingAnswer: bool

    function State(): ViewerState
      reads this
    {
      ViewerState(flashcards, currentIndex, showingAnswer)
    }

    ghost predicate Valid()
      reads this
    {
      State().Valid()
    }

    constructor()
      ensures State() == Initial && Valid()
    {
      flashcards := [];
      currentIndex := 0;
      showingAnswer := false;
    }

    method SetFlashcards(cs: seq<FlashCard>)
      modifies this
      ensures State() == SetCards(cs) && Valid()
    {
      flashcards := cs;
      currentIndex := 0;
      showingAnswer := false;
    }

    method PreviousCard()
      requires Valid()
      modifies this
      ensures State() == Previous(old(State())) && Valid()
    {
      if currentIndex > 0 {
        currentIndex := currentIndex - 1;
        showingAnswer := false;
      }
    }

    method NextCard()
      requires Valid()
      modifies this
      ensures State() == Next(old(State())) && Valid()
    {
      if currentIndex < |flashcards| - 1 {
        currentIndex := currentIndex + 1;
        showingAnswer := false;
      }
    }

    method FlipCard()
      requires Valid()
      modifies this
      ensures State() == Flip(old(State())) && Valid()
    {
      showingAnswer := !showingAnswer;
    }

    method AddFlashcards(newCards: seq<FlashCard>)
      requires Valid()
      modifies this
      ensures State() == Add(old(State()), newCards) && Valid()
    {
      flashcards := flashcards + newCards;
      if |flashcards| == |newCards| {
        currentIndex := 0;
        showingAnswer := false;
      }
    }

    method Clear()
      modifies this
      ensures State() == Cleared(old(State())) && Valid()
    {
      flashcards := [];
      currentIndex := 0;
      showingAnswer := false;
    }
  }
}

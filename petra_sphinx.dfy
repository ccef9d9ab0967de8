/**
 * Petra Sphinx's activated ability: the target player names a card, then
 * reveals the top card of their library; it goes to their hand when it has the
 * chosen name and to their graveyard otherwise.
 */
module PetraSphinx {
  import opened Wrappers

  datatype Card = Card(id: nat, name: string)

  /**
   * One round of the naming loop: the player either chooses a name, or declines
   * and is then asked whether they can still respond.
   */
  datatype Answer = Chose(name: string) | Declined(canRespond: bool)

  /** An answer that ends the naming loop: a name, or a player who can no longer respond. */
  predicate Ends(a: Answer) {
    a != Declined(true)
  }

  /** The player eventually ends the naming loop. */
  predicate Decisive(answers: seq<Answer>) {
    exists i :: 0 <= i < |answers| && Ends(answers[i])
  }

  lemma DecisiveTail(answers: seq<Answer>)
    requires Decisive(answers) && !Ends(answers[0])
    ensures Decisive(answers[1..])
  {
    var i :| 0 <= i < |answers| && Ends(answers[i]);
    assert answers[1..][i - 1] == answers[i];
  }

  /** The first round that ends the naming loop; every round before it is a refusal the player can answer. */
  function FirstEnding(answers: seq<Answer>): (k: nat)
    requires Decisive(answers)
    ensures k < |answers| && Ends(answers[k])
    ensures forall j :: 0 <= j < k ==> answers[j] == Declined(true)
    decreases |answers|
  {
    if Ends(answers[0]) then 0
    else
      DecisiveTail(answers);
      var k := FirstEnding(answers[1..]);
      assert forall j :: 1 <= j < k + 1 ==> answers[j] == answers[1..][j - 1];
      k + 1
  }

  /** The name the loop settles on, or None when the player stops being able to respond first. */
  function ChosenName(answers: seq<Answer>): (r: Option<string>)
    requires Decisive(answers)
    ensures var a := answers[FirstEnding(answers)];
      r == if a.Chose? then Some(a.name) else None
    decreases |answers|
  {
    match answers[0]
    case Chose(n) => Some(n)
    case Declined(canRespond) =>
      if !canRespond then None
      else
        DecisiveTail(answers);
        ChosenName(answers[1..])
  }

  /** The target player's library (index 0 is the top), hand and graveyard. */
  datatype PlayerZones = PlayerZones(library: seq<Card>, hand: seq<Card>, graveyard: seq<Card>)

  /** Every card in the three zones, counted with multiplicity. */
  function AllCards(z: PlayerZones): multiset<Card> {
    multiset(z.library) + multiset(z.hand) + multiset(z.graveyard)
  }

  /** The top card leaves the library for the hand when it has the name, for the graveyard otherwise. */
  function Reveal(z: PlayerZones, name: string): (r: PlayerZones)
    requires z.library != []
    ensures r.library == z.library[1..]
    ensures z.library[0].name == name ==> r.hand == z.hand + [z.library[0]] && r.graveyard == z.graveyard
    ensures z.library[0].name != name ==> r.graveyard == z.graveyard + [z.library[0]] && r.hand == z.hand
  {
    var card := z.library[0];
    if card.name == name then PlayerZones(z.library[1..], z.hand + [card], z.graveyard)
    else PlayerZones(z.library[1..], z.hand, z.graveyard + [card])
  }

  /** No card is created or lost: the revealed card only changes zone. */
  lemma RevealConserves(z: PlayerZones, name: string)
    requires z.library != []
    ensures AllCards(Reveal(z, name)) == AllCards(z)
  {
    assert z.library == [z.library[0]] + z.library[1..];
  }

  /**
   * Exactly the top card leaves the library; it reaches the hand if and only if it
   * has the chosen name, the graveyard otherwise, never both; the other two zones
   * together grow by one card.
   */
  lemma RevealMovesTopCard(z: PlayerZones, name: string)
    requires z.library != []
    ensures var r, card := Reveal(z, name), z.library[0];
      && r.library == z.library[1..]
      && |r.library| == |z.library| - 1
      && (r.hand == z.hand + [card] <==> card.name == name)
      && (r.graveyard == z.graveyard + [card] <==> card.name != name)
      && (r.hand == z.hand || r.graveyard == z.graveyard)
      && |r.hand| + |r.graveyard| == |z.hand| + |z.graveyard| + 1
  {
    var r, card := Reveal(z, name), z.library[0];
    if card.name == name {
      assert |r.graveyard| != |z.graveyard + [card]|;
    } else {
      assert |r.hand| != |z.hand + [card]|;
    }
  }

  /** A player's zones, changed in place by the effect. */
  class Player {
    var library: seq<Card>
    var hand: seq<Card>
    var graveyard: seq<Card>

    constructor (library: seq<Card>, hand: seq<Card>, graveyard: seq<Card>)
      ensures this.library == library && this.hand == hand && this.graveyard == graveyard
    {
      this.library := library;
      this.hand := hand;
      this.graveyard := graveyard;
    }

    function Zones(): PlayerZones
      reads this
    {
      PlayerZones(library, hand, graveyard)
    }

    /** The library's `removeFromTop`: the top card, taken out of the library, or None when it is empty. */
    method RemoveFromTop() returns (card: Option<Card>)
      modifies this
      ensures old(library) == [] ==> card == None && library == old(library)
      ensures old(library) != [] ==> card == Some(old(library)[0]) && library == old(library)[1..]
      ensures hand == old(hand) && graveyard == old(graveyard)
    {
      if library == [] {
        card := None;
      } else {
        card := Some(library[0]);
        library := library[1..];
      }
    }

    method MoveToHand(card: Card)
      modifies this
      ensures hand == old(hand) + [card]
      ensures library == old(library) && graveyard == old(graveyard)
    {
      hand := hand + [card];
    }

    method MoveToGraveyard(card: Card)
      modifies this
      ensures graveyard == old(graveyard) + [card]
      ensures library == old(library) && hand == old(hand)
    {
      graveyard := graveyard + [card];
    }
  }

  /**
   * The naming loop: ask until the player chooses a name; after each refusal give
   * up if the player can no longer respond. Returns the name (None on giving up)
   * and how many rounds were asked.
   */
  method NameACard(answers: seq<Answer>) returns (name: Option<string>, rounds: nat)
    requires Decisive(answers)
    ensures 1 <= rounds <= |answers|
    ensures forall j :: 0 <= j < rounds - 1 ==> answers[j] == Declined(true)
    ensures Ends(answers[rounds - 1])
    ensures name == if answers[rounds - 1].Chose? then Some(answers[rounds - 1].name) else None
    ensures name == ChosenName(answers)
    ensures rounds == FirstEnding(answers) + 1
  {
    rounds := 0;
    while answers[rounds].Declined?
      invariant 0 <= rounds < |answers|
      invariant forall j :: 0 <= j < rounds ==> answers[j] == Declined(true)
      invariant Decisive(answers[rounds..]) && ChosenName(answers[rounds..]) == ChosenName(answers)
      decreases |answers| - rounds
    {
      if !answers[rounds].canRespond {
        name := None;
        rounds := rounds + 1;
        return;
      }
      DecisiveTail(answers[rounds..]);
      assert answers[rounds..][1..] == answers[rounds + 1..];
      rounds := rounds + 1;
    }
    name := Some(answers[rounds].name);
    rounds := rounds + 1;
  }

  /**
   * `PetraSphinxEffect.apply`. `controller` and `target` are the players the game
   * finds (null when missing), `sourcePresent` whether the source object exists,
   * and `answers` the target player's replies to the naming prompt.
   */
  method Apply(controller: Player?, sourcePresent: bool, target: Player?, answers: seq<Answer>)
    returns (applied: bool)
    requires controller != null && sourcePresent && target != null && target.library != [] ==> Decisive(answers)
    modifies target
    ensures controller != null && controller != target ==> unchanged(controller)
    ensures controller == null || !sourcePresent || target == null ==> !applied
    ensures target != null && (controller == null || !sourcePresent) ==> unchanged(target)
    ensures controller != null && sourcePresent && target != null && old(target.library) == [] ==>
      applied && unchanged(target)
    ensures controller != null && sourcePresent && target != null && old(target.library) != [] ==>
      applied == ChosenName(answers).Some?
    ensures controller != null && sourcePresent && target != null && old(target.library) != [] && !applied ==>
      unchanged(target)
    ensures controller != null && sourcePresent && target != null && old(target.library) != [] && applied ==>
      target.Zones() == Reveal(old(target.Zones()), ChosenName(answers).value)
  {
    if controller != null && sourcePresent && target != null {
      if target.library != [] {
        var name, _ := NameACard(answers);
        if name.None? {
          return false;
        }
        var card := target.RemoveFromTop();
        if card.Some? {
          if card.value.name == name.value {
            target.MoveToHand(card.value);
          } else {
            target.MoveToGraveyard(card.value);
          }
        }
      }
      return true;
    }
    return false;
  }
}

/**
 * `CardManager`: the in-memory store of flashcard sets, a dictionary from set
 * name to the set's description and its word -> answer cards. Every mutator
 * answers whether it succeeded.
 */
module CardManager {
  import opened Wrappers

  /** The value stored for one set. */
  datatype SetInfo = SetInfo(description: string, cards: map<string, string>)

  /** Python truthiness of an optional string argument: given and non-empty. */
  predicate Truthy(s: Option<string>) {
    s.Some? && s.value != ""
  }

  /** `xs` with `x` taken out, the others keeping their order. */
  function Without(xs: seq<string>, x: string): (r: seq<string>)
    ensures forall y :: y in r <==> y in xs && y != x
    ensures NoDuplicates(xs) ==> NoDuplicates(r)
  {
    if xs == [] then []
    else
      var prev := Without(xs[..|xs| - 1], x);
      var last := xs[|xs| - 1];
      assert xs == xs[..|xs| - 1] + [last];
      if last == x then prev
      else
        assert NoDuplicates(xs) ==> last !in xs[..|xs| - 1];
        prev + [last]
  }

  /** The cards of a set after `edit_card` succeeds on `word` (card_manager.py:119-125). */
  function EditedCards(cards: map<string, string>, word: string, newWord: Option<string>, newAnswer: Option<string>): (r: map<string, string>)
    requires word in cards
    ensures Truthy(newWord) && newWord.value != word ==>
              && word !in r
              && r.Keys == cards.Keys - {word} + {newWord.value}
              && r[newWord.value] == (if Truthy(newAnswer) then newAnswer.value else cards[word])
              && forall w :: w in cards && w != word && w != newWord.value ==> r[w] == cards[w]
    ensures !(Truthy(newWord) && newWord.value != word) ==>
              && r.Keys == cards.Keys
              && r[word] == (if Truthy(newAnswer) then newAnswer.value else cards[word])
              && forall w :: w in cards && w != word ==> r[w] == cards[w]
  {
    if Truthy(newWord) && newWord.value != word then
      var moved := if Truthy(newAnswer) then newAnswer.value else cards[word];
      (cards[newWord.value := moved]) - {word}
    else if Truthy(newAnswer) then
      cards[word := newAnswer.value]
    else
      cards
  }

  /** Renaming a card to a fresh word and renaming it back restores the set's cards. */
  lemma RenameRoundTrip(cards: map<string, string>, word: string, newWord: string)
    requires word in cards && newWord != "" && newWord != word && newWord !in cards
    requires word != ""
    ensures var renamed := EditedCards(cards, word, Some(newWord), None);
            newWord in renamed && EditedCards(renamed, newWord, Some(word), None) == cards
  {
  }

  class CardManager {
    /** The dictionary's keys in insertion order, as `keys()` yields them. */
    var names: seq<string>
    /** `card_sets`. */
    var cardSets: map<string, SetInfo>

    ghost predicate Valid()
      reads this
    {
      NoDuplicates(names) && forall n :: n in cardSets <==> n in names
    }

    /** A manager whose sets file does not exist yet: no sets. */
    constructor ()
      ensures Valid()
      ensures cardSets == map[] && names == []
    {
      names := [];
      cardSets := map[];
    }

    /** `create_set`: fails on an existing name, otherwise adds an empty set with the description. */
    method CreateSet(setName: string, description: string) returns (ok: bool)
      requires Valid()
      modifies this
      ensures Valid()
      ensures ok <==> setName !in old(cardSets)
      ensures ok ==> cardSets == old(cardSets)[setName := SetInfo(description, map[])]
                     && names == old(names) + [setName]
      ensures !ok ==> cardSets == old(cardSets) && names == old(names)
    {
      if setName in cardSets {
        return false;
      }
      cardSets := cardSets[setName := SetInfo(description, map[])];
      names := names + [setName];
      return true;
    }

    /** `delete_set`: fails on an unknown name, otherwise removes that set only. */
    method DeleteSet(setName: string) returns (ok: bool)
      requires Valid()
      modifies this
      ensures Valid()
      ensures ok <==> setName in old(cardSets)
      ensures ok ==> cardSets == old(cardSets) - {setName} && names == Without(old(names), setName)
      ensures !ok ==> cardSets == old(cardSets) && names == old(names)
    {
      if setName !in cardSets {
        return false;
      }
      cardSets := cardSets - {setName};
      names := Without(names, setName);
      return true;
    }

    /** `add_card`: fails on an unknown set, otherwise maps the word to the answer, replacing any old answer. */
    method AddCard(setName: string, word: string, answer: string) returns (ok: bool)
      requires Valid()
      modifies this
      ensures Valid() && names == old(names)
      ensures ok <==> setName in old(cardSets)
      ensures ok ==> cardSets == old(cardSets)[setName := old(cardSets)[setName].(cards := old(cardSets)[setName].cards[word := answer])]
      ensures !ok ==> cardSets == old(cardSets)
    {
      if setName !in cardSets {
        return false;
      }
      var info := cardSets[setName];
      cardSets := cardSets[setName := info.(cards := info.cards[word := answer])];
      return true;
    }

    /** `remove_card`: fails when the set or the word is missing, otherwise removes exactly that word. */
    method RemoveCard(setName: string, word: string) returns (ok: bool)
      requires Valid()
      modifies this
      ensures Valid() && names == old(names)
      ensures ok <==> setName in old(cardSets) && word in old(cardSets)[setName].cards
      ensures ok ==> cardSets == old(cardSets)[setName := old(cardSets)[setName].(cards := old(cardSets)[setName].cards - {word})]
      ensures !ok ==> cardSets == old(cardSets)
    {
      if setName !in cardSets || word !in cardSets[setName].cards {
        return false;
      }
      var info := cardSets[setName];
      cardSets := cardSets[setName := info.(cards := info.cards - {word})];
      return true;
    }

    /**
     * `edit_card`: fails when the set or the word is missing; otherwise renames
     * and/or re-answers the card as `EditedCards` says, and succeeds even when
     * neither a new word nor a new answer is given.
     */
    method EditCard(setName: string, word: string, newWord: Option<string>, newAnswer: Option<string>) returns (ok: bool)
      requires Valid()
      modifies this
      ensures Valid() && names == old(names)
      ensures ok <==> setName in old(cardSets) && word in old(cardSets)[setName].cards
      ensures ok ==> cardSets == old(cardSets)[setName := old(cardSets)[setName].(cards := EditedCards(old(cardSets)[setName].cards, word, newWord, newAnswer))]
      ensures ok && !Truthy(newWord) && !Truthy(newAnswer) ==> cardSets == old(cardSets)
      ensures !ok ==> cardSets == old(cardSets)
    {
      if setName !in cardSets || word !in cardSets[setName].cards {
        return false;
      }
      var info := cardSets[setName];
      var cards := info.cards;
      if Truthy(newWord) && newWord.value != word {
        cards := cards[newWord.value := if Truthy(newAnswer) then newAnswer.value else cards[word]];
        cards := cards - {word};
      } else if Truthy(newAnswer) {
        cards := cards[word := newAnswer.value];
      }
      cardSets := cardSets[setName := info.(cards := cards)];
      return true;
    }

    /** `get_sets`: every set name once, in creation order. */
    method GetSets() returns (r: seq<string>)
      requires Valid()
      ensures r == names
      ensures NoDuplicates(r)
      ensures forall n :: n in r <==> n in cardSets
    {
      r := names;
    }

    /** `get_set_info`: the set's record, or none for an unknown name. */
    method GetSetInfo(setName: string) returns (r: Option<SetInfo>)
      ensures r.Some? <==> setName in cardSets
      ensures r.Some? ==> r.value == cardSets[setName]
    {
      r := if setName in cardSets then Some(cardSets[setName]) else None;
    }

    /** `get_cards`: the set's word -> answer map, or none for an unknown name. */
    method GetCards(setName: string) returns (r: Option<map<string, string>>)
      ensures r.Some? <==> setName in cardSets
      ensures r.Some? ==> r.value == cardSets[setName].cards
    {
      var info := GetSetInfo(setName);
      r := if info.Some? then Some(info.value.cards) else None;
    }
  }
}

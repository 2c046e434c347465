/** The grouped-collection endpoint: every stored card is placed, in storage
    order, into one of eight lists by the generation of its national Pokedex
    number.

    The response object has the eight properties "gen1" to "gen8".  Here the
    grouped collection is a map from the generation number g to the list
    sent under the property `Label(g)`; `LabelsDistinct` shows that the
    labelling is one-to-one, so nothing is lost by keying on g.
 */
module Grouping {
  import opened Cards
  import opened Generations

  /** The response property that holds generation `g`. */
  function Label(g: Gen): string
  {
    ["gen1", "gen2", "gen3", "gen4", "gen5", "gen6", "gen7", "gen8"][g - 1]
  }

  /** The generation a card is grouped under. */
  function CardGeneration(card: Card): Gen
  {
    Generation(DexOrZero(card))
  }

  /** The cards of generation `g`, in the order they appear in `cards`. */
  function Bucket(cards: seq<Card>, g: Gen): (b: seq<Card>)
    ensures |b| <= |cards|
  {
    if cards == [] then []
    else (if CardGeneration(cards[0]) == g then [cards[0]] else []) + Bucket(cards[1..], g)
  }

  /** The grouped collection: each of the eight generations with its bucket. */
  function Grouped(cards: seq<Card>): map<Gen, seq<Card>>
  {
    map g: Gen | 1 <= g <= 8 :: Bucket(cards, g)
  }

  /** The buckets of generations `g` to 8 one after the other. */
  function BucketsFrom(cards: seq<Card>, g: Gen): seq<Card>
    decreases 8 - g
  {
    Bucket(cards, g) + if g < 8 then BucketsFrom(cards, g + 1) else []
  }

  /** The eight buckets one after the other, in generation order. */
  function AllBuckets(cards: seq<Card>): seq<Card>
  {
    BucketsFrom(cards, 1)
  }

  /** `s` is obtained from `t` by deleting elements, keeping the order of the
      rest. */
  predicate IsSubsequence(s: seq<Card>, t: seq<Card>)
    decreases |t|
  {
    if s == [] then true
    else if t == [] then false
    else (s[0] == t[0] && IsSubsequence(s[1..], t[1..])) || IsSubsequence(s, t[1..])
  }

  /** Walks the cards in order and appends each one to the list of its
      generation, starting from eight empty lists. */
  method GroupByGeneration(cards: seq<Card>) returns (grouped: map<Gen, seq<Card>>)
    ensures grouped == Grouped(cards)
  {
    grouped := map[1 := [], 2 := [], 3 := [], 4 := [], 5 := [], 6 := [], 7 := [], 8 := []];
    EmptyInputEmptyBuckets();
    for i := 0 to |cards|
      invariant grouped == Grouped(cards[..i])
    {
      var card := cards[i];
      var gen := Generation(DexOrZero(card));
      GroupedAppend(cards[..i], card);
      assert cards[..i + 1] == cards[..i] + [card];
      grouped := grouped[gen := grouped[gen] + [card]];
    }
    assert cards[..|cards|] == cards;
  }

  /** The response of the grouped-collection endpoint. */
  datatype GroupedResponse =
    | GroupedOk(grouped: map<Gen, seq<Card>>)
    | GroupFailed(status: int, error: string)

  /** Handles a grouped-collection request over the whole store; `readOk` is
      whether reading the stored cards succeeded.  No card is filtered out
      before grouping. */
  method HandleGroupedCollection(store: seq<Card>, readOk: bool) returns (resp: GroupedResponse)
    ensures readOk ==> resp == GroupedOk(Grouped(store))
    ensures !readOk ==> resp == GroupFailed(500, "Failed to group cards")
  {
    if !readOk {
      return GroupFailed(500, "Failed to group cards");
    }
    var grouped := GroupByGeneration(store);
    resp := GroupedOk(grouped);
  }

  // ---------------------------------------------------------------------
  // Properties of the grouping

  /** The eight response properties have distinct names. */
  lemma LabelsDistinct(g: Gen, h: Gen)
    requires g != h
    ensures Label(g) != Label(h)
  {
    assert Label(g)[3] != Label(h)[3];
  }

  /** The result always has exactly the eight generations 1 to 8 as keys,
      sent under the properties "gen1" to "gen8". */
  lemma GroupedShape(cards: seq<Card>)
    ensures Grouped(cards).Keys == {1, 2, 3, 4, 5, 6, 7, 8}
    ensures (set g | g in Grouped(cards) :: Label(g)) ==
            {"gen1", "gen2", "gen3", "gen4", "gen5", "gen6", "gen7", "gen8"}
  {
    assert Grouped(cards).Keys == {1, 2, 3, 4, 5, 6, 7, 8};
    assert Label(1) == "gen1" && Label(2) == "gen2" && Label(3) == "gen3" && Label(4) == "gen4";
    assert Label(5) == "gen5" && Label(6) == "gen6" && Label(7) == "gen7" && Label(8) == "gen8";
  }

  /** An empty store yields the eight keys, each with an empty list. */
  lemma EmptyInputEmptyBuckets()
    ensures Grouped([]) == map[1 := [], 2 := [], 3 := [], 4 := [], 5 := [], 6 := [], 7 := [], 8 := []]
  {
    var empty: map<Gen, seq<Card>> := map[1 := [], 2 := [], 3 := [], 4 := [], 5 := [], 6 := [], 7 := [], 8 := []];
    assert Grouped([]).Keys == empty.Keys;
  }

  /** Appending a card to the input appends it to the bucket of its own
      generation and leaves the other buckets as they were. */
  lemma {:induction false} BucketAppend(cards: seq<Card>, card: Card, g: Gen)
    ensures Bucket(cards + [card], g) ==
            Bucket(cards, g) + (if CardGeneration(card) == g then [card] else [])
  {
    var pushed := if CardGeneration(card) == g then [card] else [];
    if cards == [] {
      assert [card][1..] == [];
      assert Bucket([card], g) == pushed + Bucket([], g);
    } else {
      var head := if CardGeneration(cards[0]) == g then [cards[0]] else [];
      var tail := cards[1..];
      assert (cards + [card])[0] == cards[0];
      assert (cards + [card])[1..] == tail + [card];
      BucketAppend(tail, card, g);
      calc {
        Bucket(cards + [card], g);
        head + Bucket(tail + [card], g);
        head + (Bucket(tail, g) + pushed);
        (head + Bucket(tail, g)) + pushed;
        Bucket(cards, g) + pushed;
      }
    }
  }

  /** One step of the grouping loop: the grouped collection of `cards + [card]`
      is that of `cards` with `card` pushed onto the list of its generation. */
  lemma GroupedAppend(cards: seq<Card>, card: Card)
    ensures Grouped(cards + [card]) ==
            Grouped(cards)[CardGeneration(card) := Grouped(cards)[CardGeneration(card)] + [card]]
  {
    var gen := CardGeneration(card);
    var longer := Grouped(cards + [card]);
    var pushed := Grouped(cards)[gen := Grouped(cards)[gen] + [card]];
    forall g: Gen
      ensures longer[g] == pushed[g]
    {
      BucketAppend(cards, card, g);
    }
    assert longer.Keys == pushed.Keys;
  }

  /** A card occurs in bucket `g` as many times as in the input when its
      generation is `g`, and not at all otherwise: every card is placed in
      exactly one bucket, and nothing is dropped or duplicated. */
  lemma {:induction false} BucketMultiplicity(cards: seq<Card>, g: Gen, card: Card)
    ensures multiset(Bucket(cards, g))[card] ==
            if CardGeneration(card) == g then multiset(cards)[card] else 0
  {
    if cards != [] {
      var head := if CardGeneration(cards[0]) == g then [cards[0]] else [];
      BucketMultiplicity(cards[1..], g, card);
      assert cards == [cards[0]] + cards[1..];
      assert multiset(Bucket(cards, g)) == multiset(head) + multiset(Bucket(cards[1..], g));
    }
  }

  /** A card is in the bucket of generation `g` exactly when it is stored and
      its generation is `g`. */
  lemma {:induction false} BucketMembership(cards: seq<Card>, g: Gen, card: Card)
    ensures card in Bucket(cards, g) <==> card in cards && CardGeneration(card) == g
  {
    BucketMultiplicity(cards, g, card);
  }

  /** Every stored card is in the list of its own generation and in no other
      list of the response. */
  lemma ExactlyOneBucket(cards: seq<Card>, card: Card)
    requires card in cards
    ensures card in Grouped(cards)[CardGeneration(card)]
    ensures forall g: Gen :: g != CardGeneration(card) ==> card !in Grouped(cards)[g]
  {
    BucketMembership(cards, CardGeneration(card), card);
    forall g: Gen | g != CardGeneration(card)
      ensures card !in Grouped(cards)[g]
    {
      BucketMembership(cards, g, card);
    }
  }

  /** For generations 1 to 7, a stored card is listed under generation `g`
      exactly when its Pokedex number lies in the g-th range. */
  lemma InBucketIffInRange(cards: seq<Card>, card: Card, g: Gen)
    requires card in cards && g < 8
    ensures card in Grouped(cards)[g] <==> InRange(DexOrZero(card), g)
  {
    BucketMembership(cards, g, card);
    GenerationIff(DexOrZero(card), g);
  }

  /** A stored card without a Pokedex number, or with number 0, is listed
      under "gen8"; so is one whose number is below 1 or above 905. */
  lemma UnnumberedCardIsGen8(cards: seq<Card>, card: Card)
    requires card in cards
    requires card.dex.None? || DexOrZero(card) < 1 || 905 < DexOrZero(card)
    ensures card in Grouped(cards)[8]
  {
    OutOfRangeIsGen8(DexOrZero(card));
    BucketMembership(cards, 8, card);
  }

  /** Together the eight lists hold exactly the stored cards, each as often
      as it is stored. */
  lemma BucketsPartition(cards: seq<Card>)
    ensures |AllBuckets(cards)| == |cards|
    ensures multiset(AllBuckets(cards)) == multiset(cards)
  {
    forall card
      ensures multiset(AllBuckets(cards))[card] == multiset(cards)[card]
    {
      CountAcrossBuckets(cards, card);
    }
    assert multiset(AllBuckets(cards)) == multiset(cards);
    assert |AllBuckets(cards)| == |multiset(AllBuckets(cards))| == |multiset(cards)| == |cards|;
  }

  /** The eight list lengths of the response sum to the number of stored
      cards. */
  lemma BucketSizesSum(cards: seq<Card>)
    ensures |Grouped(cards)[1]| + |Grouped(cards)[2]| + |Grouped(cards)[3]| +
            |Grouped(cards)[4]| + |Grouped(cards)[5]| + |Grouped(cards)[6]| +
            |Grouped(cards)[7]| + |Grouped(cards)[8]| == |cards|
  {
    BucketsPartition(cards);
    assert AllBuckets(cards) ==
      Bucket(cards, 1) + (Bucket(cards, 2) + (Bucket(cards, 3) + (Bucket(cards, 4) +
      (Bucket(cards, 5) + (Bucket(cards, 6) + (Bucket(cards, 7) + (Bucket(cards, 8) + [])))))));
  }

  /** The occurrences of one card, summed over the eight buckets, are its
      occurrences in the input. */
  lemma CountAcrossBuckets(cards: seq<Card>, card: Card)
    ensures multiset(AllBuckets(cards))[card] == multiset(cards)[card]
  {
    CountFrom(cards, 1, card);
  }

  /** The occurrences of one card in the buckets of generations `g` to 8 are
      its occurrences in the input if its generation is `g` or later, and none
      otherwise. */
  lemma {:induction false} CountFrom(cards: seq<Card>, g: Gen, card: Card)
    ensures multiset(BucketsFrom(cards, g))[card] ==
            if g <= CardGeneration(card) then multiset(cards)[card] else 0
    decreases 8 - g
  {
    var later := if g < 8 then BucketsFrom(cards, g + 1) else [];
    assert BucketsFrom(cards, g) == Bucket(cards, g) + later;
    assert multiset(BucketsFrom(cards, g)) == multiset(Bucket(cards, g)) + multiset(later);
    BucketMultiplicity(cards, g, card);
    if g < 8 {
      CountFrom(cards, g + 1, card);
    }
  }

  /** Each list is an order-preserving subsequence of the stored cards. */
  lemma {:induction false} BucketIsSubsequence(cards: seq<Card>, g: Gen)
    ensures IsSubsequence(Bucket(cards, g), cards)
  {
    if cards != [] {
      var rest := Bucket(cards[1..], g);
      BucketIsSubsequence(cards[1..], g);
      if CardGeneration(cards[0]) == g {
        assert Bucket(cards, g) == [cards[0]] + rest;
        assert Bucket(cards, g)[1..] == rest;
      } else {
        assert Bucket(cards, g) == rest;
        SubsequenceOfTail(rest, cards);
      }
    }
  }

  /** A subsequence of the tail is a subsequence of the whole. */
  lemma SubsequenceOfTail(s: seq<Card>, t: seq<Card>)
    requires t != [] && IsSubsequence(s, t[1..])
    ensures IsSubsequence(s, t)
  {
  }

  /** Saving a valid card appends it to the list of its generation and leaves
      the other seven lists unchanged; a card the client posts, with no
      Pokedex number, therefore lands at the end of "gen8". */
  lemma SavedCardIsGrouped(store: seq<Card>, body: Card, writeOk: bool)
    requires SaveCard(store, body, writeOk).response.Saved?
    ensures forall g: Gen ::
      Grouped(SaveCard(store, body, writeOk).store)[g] ==
      Grouped(store)[g] + (if g == CardGeneration(body) then [body] else [])
    ensures body.dex.None? ==>
      Grouped(SaveCard(store, body, writeOk).store)[8] == Grouped(store)[8] + [body]
  {
    forall g: Gen {
      BucketAppend(store, body, g);
    }
  }
}

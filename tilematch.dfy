/** The memory-match stage: sixteen face-down cards, two per photo, turned over
    two at a time; a pair with the same photo stays matched. */
module TileMatch {

  import opened Wrappers

  /** One photo of the deck. */
  datatype Image = Image(src: string, caption: string)

  /** The eight photos the component builds its deck from, in table order;
      photo i is pair i. */
  const CardImages: seq<Image> := [
    Image("@/assets/tile-sunset.jpg", "Sunset"),
    Image("@/assets/tile-coffee.jpg", "Coffee"),
    Image("@/assets/tile-garden.jpg", "Garden"),
    Image("@/assets/tile-stars.jpg", "Stars"),
    Image("@/assets/tile-paris.jpg", "Paris"),
    Image("@/assets/tile-beach.jpg", "Beach"),
    Image("@/assets/tile-ferris.jpg", "Ferris Wheel"),
    Image("@/assets/tile-cabin.jpg", "Cabin")
  ]

  const PairCount: nat := 8
  const DeckSize: nat := 16

  /** `CARD_IMAGES` is a table of eight photos, as the game requires. */
  lemma CardImagesHasEightPhotos()
    ensures |CardImages| == PairCount
  {
  }

  datatype Card = Card(id: nat, pairId: nat, src: string, caption: string, flipped: bool, matched: bool)

  /** The face-down card with id `id`: the `id % 2`-th copy of photo `id / 2`
      of the table `images`. */
  function PairCard(images: seq<Image>, id: nat): (c: Card)
    requires |images| == PairCount && id < DeckSize
    ensures c.id == id && c.pairId == id / 2 && c.pairId < PairCount
    ensures c.src == images[c.pairId].src && c.caption == images[c.pairId].caption
    ensures !c.flipped && !c.matched
  {
    Card(id, id / 2, images[id / 2].src, images[id / 2].caption, false, false)
  }

  /** The card with its face-up and matched marks cleared: what never changes during a game. */
  function Face(c: Card): Card {
    c.(flipped := false, matched := false)
  }

  /** The `flatMap` of `initGame`: two cards per photo, the photo at position j of
      `imgs` getting ids `2 * (base + j)` and `2 * (base + j) + 1` and pair id `base + j`. */
  function FlatPairs(imgs: seq<Image>, base: nat): (r: seq<Card>)
    ensures |r| == 2 * |imgs|
    ensures forall k | 0 <= k < |r| ::
      r[k] == Card(2 * base + k, base + k / 2, imgs[k / 2].src, imgs[k / 2].caption, false, false)
  {
    if imgs == [] then []
    else
      var img := imgs[0];
      [Card(2 * base, base, img.src, img.caption, false, false),
       Card(2 * base + 1, base, img.src, img.caption, false, false)]
      + FlatPairs(imgs[1..], base + 1)
  }

  /** The unshuffled deck of a table of eight photos: card k has id k. */
  function Pairs(images: seq<Image>): (r: seq<Card>)
    requires |images| == PairCount
    ensures |r| == DeckSize
    ensures forall k | 0 <= k < DeckSize :: r[k] == PairCard(images, k)
  {
    FlatPairs(images, 0)
  }

  /** `perm` lists every position 0..n-1 exactly once. */
  predicate IsPermutation(perm: seq<nat>, n: nat) {
    |perm| == n &&
    (forall k | 0 <= k < n :: perm[k] < n) &&
    (forall j, k | 0 <= j < k < n :: perm[j] != perm[k]) &&
    (forall v | 0 <= v < n :: v in perm)
  }

  /** The random `sort` of `initGame`, as the order it happens to produce:
      position k of the dealt deck holds unshuffled card `perm[k]`. */
  function Deal(images: seq<Image>, perm: seq<nat>): (r: seq<Card>)
    requires |images| == PairCount && IsPermutation(perm, DeckSize)
    ensures |r| == DeckSize
    ensures forall k | 0 <= k < DeckSize :: r[k] == PairCard(images, perm[k])
  {
    var pairs := Pairs(images);
    seq(DeckSize, k requires 0 <= k < DeckSize => pairs[perm[k]])
  }

  /** The ids of the cards, position by position. */
  ghost function Ids(cards: seq<Card>): (ids: seq<nat>)
    ensures |ids| == |cards| && forall k | 0 <= k < |cards| :: ids[k] == cards[k].id
  {
    if cards == [] then [] else [cards[0].id] + Ids(cards[1..])
  }

  /** A dealt deck as the game keeps it: 16 cards whose ids are 0..15, each once,
      card `id` belonging to pair `id / 2`. Flipping and matching change
      nothing here. */
  ghost predicate Dealt(cards: seq<Card>) {
    |cards| == DeckSize && IsPermutation(Ids(cards), DeckSize) &&
    forall k | 0 <= k < DeckSize :: cards[k].pairId == cards[k].id / 2
  }

  /** Positions of the cards of pair `p`. */
  ghost function PairPositions(cards: seq<Card>, p: nat): set<nat> {
    set k | 0 <= k < |cards| && cards[k].pairId == p
  }

  /** Every freshly dealt deck is dealt as above and is face down. */
  lemma DealIsDealt(images: seq<Image>, perm: seq<nat>)
    requires |images| == PairCount && IsPermutation(perm, DeckSize)
    ensures Dealt(Deal(images, perm))
    ensures forall k | 0 <= k < DeckSize :: !Deal(images, perm)[k].flipped && !Deal(images, perm)[k].matched
  {
    assert Ids(Deal(images, perm)) == perm;
  }

  /** Card `k` of a dealt deck belongs to pair `id / 2`. */
  lemma DealtCard(cards: seq<Card>, k: nat)
    requires Dealt(cards) && k < DeckSize
    ensures cards[k].id < DeckSize && cards[k].pairId == cards[k].id / 2
  {
    assert Ids(cards)[k] == cards[k].id;
  }

  /** The cards with ids `2 * p` and `2 * p + 1` are the only cards of pair `p`. */
  lemma PairPositionsAre(cards: seq<Card>, p: nat, k1: nat, k2: nat)
    requires Dealt(cards) && k1 < DeckSize && k2 < DeckSize
    requires cards[k1].id == 2 * p && cards[k2].id == 2 * p + 1
    ensures PairPositions(cards, p) == {k1, k2} && k1 != k2
  {
    DealtCard(cards, k1);
    DealtCard(cards, k2);
    forall k | k in PairPositions(cards, p)
      ensures k == k1 || k == k2
    {
      DealtCard(cards, k);
      assert Ids(cards)[k] == cards[k].id;
    }
  }

  /** In a dealt deck every pair id 0..7 sits on exactly two positions, and no
      other pair id occurs. */
  lemma PairsTwice(cards: seq<Card>, p: nat)
    requires Dealt(cards)
    ensures p < PairCount ==> |PairPositions(cards, p)| == 2
    ensures p >= PairCount ==> PairPositions(cards, p) == {}
  {
    var ids := Ids(cards);
    if p < PairCount {
      assert 2 * p in ids && 2 * p + 1 in ids;
      var k1 :| 0 <= k1 < DeckSize && ids[k1] == 2 * p;
      var k2 :| 0 <= k2 < DeckSize && ids[k2] == 2 * p + 1;
      PairPositionsAre(cards, p, k1, k2);
    } else {
      forall k | 0 <= k < DeckSize
        ensures cards[k].pairId != p
      {
        DealtCard(cards, k);
      }
    }
  }

  /** Two decks that differ only in face-up and matched marks. */
  ghost predicate SameFaces(c1: seq<Card>, c2: seq<Card>) {
    |c1| == |c2| && forall k | 0 <= k < |c1| :: Face(c1[k]) == Face(c2[k])
  }

  lemma SameFacesDealt(c1: seq<Card>, c2: seq<Card>)
    requires Dealt(c1) && SameFaces(c1, c2)
    ensures Dealt(c2)
  {
    forall k | 0 <= k < DeckSize
      ensures c2[k].id == c1[k].id
    {
      assert Face(c1[k]) == Face(c2[k]);
    }
    assert Ids(c2) == Ids(c1);
  }

  /** The per-card `map` of the flip: card `idx` turns face up, no other card changes. */
  function FlipCard(cards: seq<Card>, idx: nat): (r: seq<Card>)
    requires idx < |cards|
    ensures SameFaces(cards, r) && r[idx].flipped && r[idx].matched == cards[idx].matched
    ensures forall k | 0 <= k < |r| && k != idx :: r[k] == cards[k]
  {
    cards[idx := cards[idx].(flipped := true)]
  }

  /** The per-card `map` of a match: cards `a` and `b` become matched; no
      matched card becomes unmatched. */
  function MarkMatched(cards: seq<Card>, a: nat, b: nat): (r: seq<Card>)
    requires a < |cards| && b < |cards|
    ensures SameFaces(cards, r)
    ensures forall k | 0 <= k < |r| :: r[k].matched == (cards[k].matched || k == a || k == b)
    ensures forall k | 0 <= k < |r| :: r[k].flipped == cards[k].flipped
  {
    var once := cards[a := cards[a].(matched := true)];
    once[b := once[b].(matched := true)]
  }

  /** The per-card `map` of a mismatch: cards `a` and `b` turn face down again,
      matched marks stay. */
  function HideCards(cards: seq<Card>, a: nat, b: nat): (r: seq<Card>)
    requires a < |cards| && b < |cards|
    ensures SameFaces(cards, r)
    ensures forall k | 0 <= k < |r| :: r[k].flipped == (cards[k].flipped && k != a && k != b)
    ensures forall k | 0 <= k < |r| :: r[k].matched == cards[k].matched
  {
    var once := cards[a := cards[a].(flipped := false)];
    once[b := once[b].(flipped := false)]
  }

  /** `every(c => c.matched)`. */
  predicate AllMatched(cards: seq<Card>) {
    forall k | 0 <= k < |cards| :: cards[k].matched
  }

  /** At most two cards are selected, and they are distinct cards that are
      face up and not matched. */
  ghost predicate SelectionOk(cards: seq<Card>, selected: seq<nat>) {
    |selected| <= 2 &&
    (forall j | 0 <= j < |selected| ::
      selected[j] < |cards| && cards[selected[j]].flipped && !cards[selected[j]].matched) &&
    (|selected| == 2 ==> selected[0] != selected[1])
  }

  /** The delayed callback a flip schedules, run later by `ResolveMatch` or `ResolveMismatch`. */
  datatype Scheduled = Nothing | MatchPair(a: nat, b: nat) | HidePair(a: nat, b: nat)

  /** What one `handleFlip` leaves behind: the cards, the selection, the started
      flag, whether a move was counted, and the callback it scheduled. */
  datatype FlipResult = FlipResult(cards: seq<Card>, selected: seq<nat>, started: bool, counted: bool, scheduled: Scheduled)

  /** Whether `handleFlip(idx)` gets past its guards. */
  predicate Accepts(cards: seq<Card>, selected: seq<nat>, idx: nat, tileMatchCompleted: bool)
    requires idx < |cards|
  {
    !tileMatchCompleted && |selected| < 2 && !cards[idx].flipped && !cards[idx].matched
  }

  /** `handleFlip(idx)` on the state it reads. A flip past the guards turns
      card `idx` face up, appends it to the selection and starts the clock; any
      other flip changes nothing. */
  function Flip(cards: seq<Card>, selected: seq<nat>, started: bool, idx: nat, tileMatchCompleted: bool): (f: FlipResult)
    requires idx < |cards| && forall j | 0 <= j < |selected| :: selected[j] < |cards|
    ensures Accepts(cards, selected, idx, tileMatchCompleted) ==>
      f.cards == FlipCard(cards, idx) && f.selected == selected + [idx] && f.started
    ensures !Accepts(cards, selected, idx, tileMatchCompleted) ==>
      f == FlipResult(cards, selected, started, false, Nothing)
  {
    if tileMatchCompleted || |selected| >= 2 || cards[idx].flipped || cards[idx].matched then
      FlipResult(cards, selected, started, false, Nothing)
    else
      var newCards := FlipCard(cards, idx);
      var newSelected := selected + [idx];
      if |newSelected| == 2 then
        var a, b := newSelected[0], newSelected[1];
        FlipResult(newCards, newSelected, true, true,
                   if newCards[a].pairId == newCards[b].pairId then MatchPair(a, b) else HidePair(a, b))
      else
        FlipResult(newCards, newSelected, true, false, Nothing)
  }

  /** A move is counted exactly when the flip makes the selection two cards
      long, and exactly then a callback is scheduled: the match callback for two
      cards of one pair, the mismatch callback otherwise. */
  lemma FlipCountsMove(cards: seq<Card>, selected: seq<nat>, started: bool, idx: nat, done: bool)
    requires idx < |cards| && SelectionOk(cards, selected)
    ensures var f := Flip(cards, selected, started, idx, done);
      (f.counted <==> Accepts(cards, selected, idx, done) && |selected| == 1) &&
      (f.scheduled != Nothing <==> f.counted) &&
      (f.scheduled.MatchPair? ==>
        f.selected == [f.scheduled.a, f.scheduled.b] && f.scheduled.a != f.scheduled.b &&
        f.cards[f.scheduled.a].pairId == f.cards[f.scheduled.b].pairId) &&
      (f.scheduled.HidePair? ==>
        f.selected == [f.scheduled.a, f.scheduled.b] &&
        f.cards[f.scheduled.a].pairId != f.cards[f.scheduled.b].pairId)
  {
    var f := Flip(cards, selected, started, idx, done);
    if Accepts(cards, selected, idx, done) && |selected| == 1 {
      assert f.selected == [selected[0], idx];
    }
  }

  /** Flips keep the deck dealt and the selection at most two distinct face-up,
      unmatched cards. */
  lemma FlipKeepsValid(cards: seq<Card>, selected: seq<nat>, started: bool, idx: nat, done: bool)
    requires Dealt(cards) && SelectionOk(cards, selected) && idx < |cards|
    ensures Dealt(Flip(cards, selected, started, idx, done).cards)
    ensures SelectionOk(Flip(cards, selected, started, idx, done).cards, Flip(cards, selected, started, idx, done).selected)
  {
    var f := Flip(cards, selected, started, idx, done);
    if Accepts(cards, selected, idx, done) {
      var newCards := FlipCard(cards, idx);
      assert f.cards == newCards && f.selected == selected + [idx];
      SameFacesDealt(cards, newCards);
      FlipKeepsSelection(cards, selected, idx);
    } else {
      assert f.cards == cards && f.selected == selected;
    }
  }

  /** Flipping an unselected face-down card and selecting it keeps the selection valid. */
  lemma FlipKeepsSelection(cards: seq<Card>, selected: seq<nat>, idx: nat)
    requires SelectionOk(cards, selected) && |selected| < 2
    requires idx < |cards| && !cards[idx].flipped && !cards[idx].matched
    ensures SelectionOk(FlipCard(cards, idx), selected + [idx])
  {
  }

  /** The resolve callbacks keep the deck dealt; the cleared selection is valid. */
  lemma ResolveKeepsValid(cards: seq<Card>, a: nat, b: nat)
    requires Dealt(cards) && a < |cards| && b < |cards|
    ensures Dealt(MarkMatched(cards, a, b)) && SelectionOk(MarkMatched(cards, a, b), [])
    ensures Dealt(HideCards(cards, a, b)) && SelectionOk(HideCards(cards, a, b), [])
  {
    SameFacesDealt(cards, MarkMatched(cards, a, b));
    SameFacesDealt(cards, HideCards(cards, a, b));
  }

  /** `initGame` does not cancel a pending mismatch callback. If card `c` of a
      fresh deck is flipped before a stale callback for cards `a` and `b` runs,
      the callback empties the selection and leaves `c` face up and unmatched
      outside it, so the next flip of `c` is refused. */
  lemma StaleMismatchStrandsCard(cards: seq<Card>, c: nat, a: nat, b: nat, started: bool)
    requires Dealt(cards) && forall k | 0 <= k < DeckSize :: !cards[k].flipped && !cards[k].matched
    requires c < DeckSize && a < DeckSize && b < DeckSize && c != a && c != b
    ensures var f := Flip(cards, [], started, c, false);
      var h := HideCards(f.cards, a, b);
      f.selected == [c] && h[c].flipped && !h[c].matched &&
      forall done: bool :: Flip(h, [], true, c, done) == FlipResult(h, [], true, false, Nothing)
  {
  }

  class TileMatchGame {
    /** The photo table the deck is built from (`CARD_IMAGES`). */
    const images: seq<Image>
    var cards: seq<Card>
    var selected: seq<nat>
    var moves: nat
    var timer: nat
    var started: bool

    /** The deck stays dealt, at most two cards are selected, and the selected
        cards are distinct cards that are face up and not matched. */
    ghost predicate Valid()
      reads this
    {
      |images| == PairCount && Dealt(cards) && SelectionOk(cards, selected)
    }

    /** Mounting the component with its table of eight photos, which runs
        `initGame` once. */
    constructor (images: seq<Image>, perm: seq<nat>)
      requires |images| == PairCount && IsPermutation(perm, DeckSize)
      ensures Valid() && this.images == images
      ensures cards == Deal(images, perm) && selected == [] && moves == 0 && timer == 0 && !started
    {
      this.images := images;
      cards, selected, moves, timer, started := Deal(images, perm), [], 0, 0, false;
      new;
      DealIsDealt(images, perm);
    }

    /** `initGame`: a fresh shuffled deck, nothing selected, counters at zero. */
    method InitGame(perm: seq<nat>)
      requires Valid() && IsPermutation(perm, DeckSize)
      modifies this
      ensures Valid()
      ensures cards == Deal(images, perm) && selected == [] && moves == 0 && timer == 0 && !started
    {
      cards, selected, moves, timer, started := Deal(images, perm), [], 0, 0, false;
      DealIsDealt(images, perm);
    }

    /** `handleFlip(idx)`: turn card `idx` face up and select it; the second
        selected card counts a move and schedules the match or mismatch callback. */
    method HandleFlip(idx: nat, tileMatchCompleted: bool) returns (s: Scheduled)
      requires Valid() && idx < DeckSize
      modifies this
      ensures Valid()
      ensures var f := Flip(old(cards), old(selected), old(started), idx, tileMatchCompleted);
        cards == f.cards && selected == f.selected && started == f.started && s == f.scheduled &&
        moves == old(moves) + (if f.counted then 1 else 0)
      ensures timer == old(timer)
    {
      FlipKeepsValid(cards, selected, started, idx, tileMatchCompleted);
      ghost var f := Flip(cards, selected, started, idx, tileMatchCompleted);
      if tileMatchCompleted || |selected| >= 2 {
        assert f == FlipResult(cards, selected, started, false, Nothing);
        return Nothing;
      }
      var card := cards[idx];
      if card.flipped || card.matched {
        assert f == FlipResult(cards, selected, started, false, Nothing);
        return Nothing;
      }
      if !started {
        started := true;
      }
      var newCards := FlipCard(cards, idx);
      var newSelected := selected + [idx];
      cards, selected := newCards, newSelected;
      s := Nothing;
      if |newSelected| == 2 {
        moves := moves + 1;
        var a, b := newSelected[0], newSelected[1];
        if newCards[a].pairId == newCards[b].pairId {
          s := MatchPair(a, b);
        } else {
          s := HidePair(a, b);
        }
        assert f == FlipResult(newCards, newSelected, true, true, s);
      } else {
        assert f == FlipResult(newCards, newSelected, true, false, Nothing);
      }
    }

    /** The match callback: cards `a` and `b` become matched and the selection is
        emptied; it schedules `completeTileMatch` exactly when every card is now matched. */
    method ResolveMatch(a: nat, b: nat) returns (completeScheduled: bool)
      requires Valid() && a < DeckSize && b < DeckSize
      modifies this
      ensures Valid()
      ensures cards == MarkMatched(old(cards), a, b) && selected == []
      ensures moves == old(moves) && timer == old(timer) && started == old(started)
      ensures completeScheduled <==> AllMatched(cards)
    {
      ResolveKeepsValid(cards, a, b);
      var updated := MarkMatched(cards, a, b);
      completeScheduled := forall k | 0 <= k < |updated| :: updated[k].matched;
      cards, selected := updated, [];
    }

    /** The mismatch callback: cards `a` and `b` turn face down and the selection
        is emptied. */
    method ResolveMismatch(a: nat, b: nat)
      requires Valid() && a < DeckSize && b < DeckSize
      modifies this
      ensures Valid()
      ensures cards == HideCards(old(cards), a, b) && selected == []
      ensures moves == old(moves) && timer == old(timer) && started == old(started)
    {
      ResolveKeepsValid(cards, a, b);
      cards, selected := HideCards(cards, a, b), [];
    }

    /** One second of the interval timer, which runs from the first flip until
        the stage is completed or the last pair is matched. */
    method Tick(tileMatchCompleted: bool)
      requires Valid()
      modifies this
      ensures Valid()
      ensures timer == old(timer) + (if started && !tileMatchCompleted && !AllMatched(cards) then 1 else 0)
      ensures cards == old(cards) && selected == old(selected) && moves == old(moves) && started == old(started)
    {
      if started && !tileMatchCompleted && !(forall k | 0 <= k < |cards| :: cards[k].matched) {
        timer := timer + 1;
      }
    }
  }

  // ---- formatTime ----

  function DigitChar(d: nat): (c: char)
    requires d < 10
    ensures '0' <= c <= '9' && c as int - '0' as int == d
  {
    ('0' as int + d) as char
  }

  predicate IsDigits(s: string) {
    forall k | 0 <= k < |s| :: '0' <= s[k] <= '9'
  }

  /** The decimal value of a digit string, leading zeros allowed. */
  function ParseDigits(s: string): (n: nat)
    requires IsDigits(s)
  {
    if s == [] then 0
    else ParseDigits(s[..|s| - 1]) * 10 + (s[|s| - 1] as int - '0' as int)
  }

  /** `Number.prototype.toString()` on a non-negative integer: decimal digits
      without leading zeros. */
  function NatToString(n: nat): (s: string)
    ensures IsDigits(s) && 1 <= |s|
    ensures |s| == 1 <==> n < 10
    ensures |s| > 1 ==> s[0] != '0'
  {
    if n < 10 then [DigitChar(n)] else NatToString(n / 10) + [DigitChar(n % 10)]
  }

  /** Reading back what `NatToString` writes gives the number again. */
  lemma {:induction false} ParseNatToString(n: nat)
    ensures ParseDigits(NatToString(n)) == n
  {
    if n >= 10 {
      ParseNatToString(n / 10);
      var s := NatToString(n);
      assert s[..|s| - 1] == NatToString(n / 10);
    }
  }

  /** `padStart(width, c)` with a one-character pad: `c` repeated in front up to
      `width` characters; a string already that long is returned as it is. */
  function PadStart(s: string, width: nat, c: char): (r: string)
    ensures |r| == if |s| < width then width else |s|
    ensures r[|r| - |s|..] == s
    ensures forall k | 0 <= k < |r| - |s| :: r[k] == c
  {
    if |s| < width then seq(width - |s|, _ => c) + s else s
  }

  /** Leading zeros do not change a digit string's value. */
  lemma {:induction false} ParseLeadingZero(s: string)
    requires IsDigits(s)
    ensures IsDigits(['0'] + s) && ParseDigits(['0'] + s) == ParseDigits(s)
  {
    if s != [] {
      var t := ['0'] + s;
      assert t[..|t| - 1] == ['0'] + s[..|s| - 1];
      ParseLeadingZero(s[..|s| - 1]);
    }
  }

  /** The pieces of `m:ss` are its slices. */
  lemma SplitTime(m: string, sec: string)
    requires |sec| == 2
    ensures var r := m + [':'] + sec;
      |r| == |m| + 3 && r[..|r| - 3] == m && r[|r| - 3] == ':' && r[|r| - 2..] == sec
  {
    var r := m + [':'] + sec;
    assert r[..|m|] == m;
    assert r[|m| + 1..] == sec;
  }

  /** `n.toString().padStart(2, "0")` for a number of seconds below 60: exactly
      two digits that read back as `n`. */
  function TwoDigits(n: nat): (r: string)
    requires n < 60
    ensures |r| == 2 && IsDigits(r) && ParseDigits(r) == n
  {
    var sec := NatToString(n);
    ParseNatToString(n);
    if |sec| == 1 then
      assert PadStart(sec, 2, '0') == ['0'] + sec;
      ParseLeadingZero(sec);
      PadStart(sec, 2, '0')
    else
      PadStart(sec, 2, '0')
  }

  /** `formatTime`: the whole minutes in decimal, a colon, and the remaining
      seconds as two digits. The colon and the two digits sit at fixed places
      from the end, and each part reads back as its share of `s`. */
  function FormatTime(s: nat): (r: string)
    ensures |r| >= 4 && r[|r| - 3] == ':'
    ensures r[..|r| - 3] == NatToString(s / 60) && IsDigits(r[..|r| - 3]) && ParseDigits(r[..|r| - 3]) == s / 60
    ensures IsDigits(r[|r| - 2..]) && ParseDigits(r[|r| - 2..]) == s % 60
  {
    var m, sec := NatToString(s / 60), TwoDigits(s % 60);
    ParseNatToString(s / 60);
    SplitTime(m, sec);
    m + [':'] + sec
  }

  /** Reads an `m:ss` text back as a number of seconds; `None` for any other text. */
  function ParseTime(r: string): (n: Option<nat>)
    ensures n.Some? ==> |r| >= 4 && r[|r| - 3] == ':'
  {
    if |r| >= 4 && r[|r| - 3] == ':' && IsDigits(r[..|r| - 3]) && IsDigits(r[|r| - 2..]) then
      Some(60 * ParseDigits(r[..|r| - 3]) + ParseDigits(r[|r| - 2..]))
    else
      None
  }

  /** Digits hold no colon, so the colon of `formatTime` is its only one. */
  lemma FormatTimeOneColon(s: nat)
    ensures var r := FormatTime(s); |r| >= 4 && ':' !in r[..|r| - 3] && ':' !in r[|r| - 2..]
  {
  }

  /** Reading the text back gives `s` again. */
  lemma FormatTimeRoundTrip(s: nat)
    ensures ParseTime(FormatTime(s)) == Some(s)
  {
  }

  /** No two times share a text. */
  lemma FormatTimeInjective(s: nat, t: nat)
    ensures FormatTime(s) == FormatTime(t) ==> s == t
  {
    FormatTimeRoundTrip(s);
    FormatTimeRoundTrip(t);
  }
}

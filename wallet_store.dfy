/** The wallet store (`useWalletStore`): bank cards with a colour taken from a
    four-colour cycle, a "cycle" action that moves the front card to the back,
    and adding and removing cards. The wallet record's type is not part of this
    model beyond its id; the rest of it is the opaque payload `details`. */
module WalletStore {
  import opened Seqs

  datatype CardColor = Yellow | Blue | Green | Red

  const CardColors: seq<CardColor> := [Yellow, Blue, Green, Red]

  datatype Wallet<D> = Wallet(id: string, details: D)

  datatype WalletCard<D> = WalletCard(id: string, details: D, color: CardColor)

  /** `CARD_COLORS[index % CARD_COLORS.length]` */
  function ColorAt(index: nat): CardColor {
    CardColors[index % |CardColors|]
  }

  /** `initializeWallets`: each wallet keeps its fields and gets the colour at its index. */
  function InitializeWallets<D>(ws: seq<Wallet<D>>): (cards: seq<WalletCard<D>>)
    ensures |cards| == |ws|
    ensures forall i :: 0 <= i < |ws| ==>
      cards[i].id == ws[i].id && cards[i].details == ws[i].details && cards[i].color == ColorAt(i)
  {
    seq(|ws|, i requires 0 <= i < |ws| => WalletCard(ws[i].id, ws[i].details, ColorAt(i)))
  }

  lemma ModFour(q: nat, k: nat)
    requires k < 4
    ensures (4 * q + k) % 4 == k
  {
  }

  /** Neighbouring indices never get the same colour, and any four consecutive
      indices get all four colours. */
  lemma ColorsCycle(i: nat)
    ensures ColorAt(i) != ColorAt(i + 1)
    ensures {ColorAt(i), ColorAt(i + 1), ColorAt(i + 2), ColorAt(i + 3)} == {Yellow, Blue, Green, Red}
  {
    var q, r := i / 4, i % 4;
    assert i == 4 * q + r;
    ColorStep(q, r, 0);
    ColorStep(q, r, 1);
    ColorStep(q, r, 2);
    ColorStep(q, r, 3);
  }

  /** The colour `j` places after index `4 * q + r`. */
  lemma ColorStep(q: nat, r: nat, j: nat)
    requires r < 4 && j < 4
    ensures ColorAt(4 * q + r + j) == CardColors[(r + j) % 4]
  {
    if r + j < 4 {
      ModFour(q, r + j);
    } else {
      ModFour(q + 1, r + j - 4);
      assert 4 * q + r + j == 4 * (q + 1) + (r + j - 4);
    }
  }

  /** In a freshly initialised list, neighbouring cards never share a colour. */
  lemma InitialNeighboursDiffer<D>(ws: seq<Wallet<D>>, i: nat)
    requires i + 1 < |ws|
    ensures InitializeWallets(ws)[i].color != InitializeWallets(ws)[i + 1].color
  {
    ColorsCycle(i);
  }

  /** The card `addWallet` appends: id "wallet_" + the caller's clock reading,
      colour from the current number of cards. */
  function NewCard<D>(details: D, stamp: string, count: nat): (card: WalletCard<D>)
    ensures card.id == "wallet_" + stamp && card.details == details
    ensures card.color == CardColors[count % 4]
  {
    WalletCard("wallet_" + stamp, details, ColorAt(count))
  }

  /** Adding to an initialised list continues its colour cycle. */
  lemma AddContinuesCycle<D>(ws: seq<Wallet<D>>, details: D, stamp: string)
    ensures InitializeWallets(ws) + [NewCard(details, stamp, |ws|)]
         == InitializeWallets(ws + [Wallet("wallet_" + stamp, details)])
  {
    var a := InitializeWallets(ws) + [NewCard(details, stamp, |ws|)];
    var b := InitializeWallets(ws + [Wallet("wallet_" + stamp, details)]);
    assert forall i :: 0 <= i < |a| ==> a[i] == b[i];
  }

  /** `cycleCards`: the front card moves to the back; an empty list stays empty. */
  function Cycled<T>(s: seq<T>): (r: seq<T>)
    ensures |r| == |s|
    ensures forall i :: 0 <= i < |s| - 1 ==> r[i] == s[i + 1]
    ensures s != [] ==> r[|s| - 1] == s[0]
  {
    if s == [] then [] else s[1..] + [s[0]]
  }

  /** `cycleCards` applied `k` times. */
  function CycledTimes<T>(s: seq<T>, k: nat): seq<T>
    decreases k
  {
    if k == 0 then s else Cycled(CycledTimes(s, k - 1))
  }

  /** `k` cycles (at most one round) rotate the list left by `k`. */
  lemma {:induction false} CycledTimesRotates<T>(s: seq<T>, k: nat)
    requires k <= |s|
    ensures CycledTimes(s, k) == s[k..] + s[..k]
    decreases k
  {
    if k == 0 {
      assert s[0..] + s[..0] == s;
    } else {
      CycledTimesRotates(s, k - 1);
      var t := s[k - 1..] + s[..k - 1];
      assert t != [] && t[0] == s[k - 1];
      assert t[1..] == s[k..] + s[..k - 1];
      assert s[..k - 1] + [s[k - 1]] == s[..k];
    }
  }

  /** As many cycles as there are cards restore the original order. */
  lemma FullCycleRestores<T>(s: seq<T>)
    ensures CycledTimes(s, |s|) == s
  {
    CycledTimesRotates(s, |s|);
  }

  /** Cycling moves cards and never changes one, so every card keeps its colour. */
  lemma CycledIsPermutation<T>(s: seq<T>)
    ensures multiset(Cycled(s)) == multiset(s)
  {
    if s != [] {
      assert s == [s[0]] + s[1..];
    }
  }

  function CardId<D>(w: WalletCard<D>): string {
    w.id
  }

  class Store<D> {
    var wallets: seq<WalletCard<D>>

    /** The store starts with the mock wallets, coloured by `initializeWallets`. */
    constructor (initial: seq<Wallet<D>>)
      ensures wallets == InitializeWallets(initial)
    {
      wallets := InitializeWallets(initial);
    }

    /** Copies the list, `shift`s the front card off and `push`es it back on. */
    method CycleCards()
      modifies this
      ensures wallets == Cycled(old(wallets))
      ensures WalletCount() == old(WalletCount())
    {
      var newWallets := wallets;
      if newWallets != [] {
        var moved := newWallets[0];
        newWallets := newWallets[1..];
        newWallets := newWallets + [moved];
      }
      wallets := newWallets;
    }

    method AddWallet(details: D, stamp: string)
      modifies this
      ensures wallets == old(wallets) + [NewCard(details, stamp, |old(wallets)|)]
      ensures wallets[|wallets| - 1].color == CardColors[|old(wallets)| % 4]
    {
      var newWallet := NewCard(details, stamp, |wallets|);
      wallets := wallets + [newWallet];
    }

    method RemoveWallet(id: string)
      modifies this
      ensures wallets == WithoutKey(old(wallets), CardId, id)
    {
      wallets := WithoutKey(wallets, CardId, id);
    }

    function WalletCount(): (n: nat)
      reads this
      ensures n == |wallets|
    {
      |wallets|
    }
  }
}

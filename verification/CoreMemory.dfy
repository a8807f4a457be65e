/**
 Initial contents of a core's memory: one word per channel, 256 words apart, or one word for a scalar.
 */
module CoreMemory {
  import opened Bits
  import opened Operations
  import opened Specification
  import opened RegisterLog
  import opened Effects

  /** A vector with one word per channel; anything else initialises a single word. */
  predicate PerChannel(init: MemoryInit, channels: nat) {
    |init.values| == channels
  }

  /** The single-word case reads the first value without a check. */
  predicate Defined(init: MemoryInit, channels: nat) {
    PerChannel(init, channels) || |init.values| > 0
  }

  function WordAddress(base: nat, address: nat, channel: nat): nat {
    base + (And(address, 0xFF) + Shl(channel, 8)) * 4
  }

  /** The stores of one initialisation, up to channel n. */
  function InitStores(init: MemoryInit, base: nat, channels: nat): seq<Store>
    requires Defined(init, channels)
  {
    if PerChannel(init, channels) then
      seq(channels, i requires 0 <= i < channels => Store(WordAddress(base, init.address, i), init.values[i]))
    else [Store(base + init.address * 4, init.values[0])]
  }

  ghost predicate AllDefined(inits: seq<MemoryInit>, channels: nat) {
    forall init :: init in inits ==> Defined(init, channels)
  }

  function MemoryStores(inits: seq<MemoryInit>, base: nat, channels: nat): seq<Store>
    requires AllDefined(inits, channels)
  {
    if inits == [] then []
    else MemoryStores(inits[..|inits| - 1], base, channels) + InitStores(inits[|inits| - 1], base, channels)
  }

  function InitEffects(init: MemoryInit, base: nat, channels: nat): seq<Effect>
    requires Defined(init, channels)
  {
    if PerChannel(init, channels) then
      seq(channels, i requires 0 <= i < channels => Write(WordAddress(base, init.address, i), init.values[i]))
    else [Write(base + init.address * 4, init.values[0])]
  }

  function MemoryEffects(inits: seq<MemoryInit>, base: nat, channels: nat): seq<Effect>
    requires AllDefined(inits, channels)
  {
    if inits == [] then []
    else MemoryEffects(inits[..|inits| - 1], base, channels) + InitEffects(inits[|inits| - 1], base, channels)
  }

  lemma {:induction false} MemoryEffectsStore(inits: seq<MemoryInit>, base: nat, channels: nat)
    requires AllDefined(inits, channels)
    ensures Stores(MemoryEffects(inits, base, channels)) == MemoryStores(inits, base, channels)
  {
    hide WordAddress, Stores;
    if inits == [] {
      StoresNone();
    } else {
      var n := |inits| - 1;
      MemoryEffectsStore(inits[..n], base, channels);
      StoresAppend(MemoryEffects(inits[..n], base, channels), InitEffects(inits[n], base, channels));
      StoresOfWrites(InitEffects(inits[n], base, channels));
      assert Stores(InitEffects(inits[n], base, channels)) == InitStores(inits[n], base, channels);
    }
  }

  // ----- meaning

  /** How many words an initialisation writes, and the i-th of them, counted from the start of the core's block. */
  function WordsOf(init: MemoryInit, channels: nat): nat {
    if PerChannel(init, channels) then channels else 1
  }

  function WordOf(init: MemoryInit, channels: nat, i: nat): nat {
    if PerChannel(init, channels) then init.address % 256 + 256 * i else init.address
  }

  /** The initialisation writes this word: a vector wraps its address at 256, a scalar does not. */
  predicate Initialises(init: MemoryInit, channels: nat, word: nat) {
    if PerChannel(init, channels) then word % 256 == init.address % 256 && word / 256 < channels
    else word == init.address
  }

  function InitialWord(init: MemoryInit, channels: nat, word: nat): Word
    requires Defined(init, channels) && Initialises(init, channels, word)
  {
    if PerChannel(init, channels) then init.values[word / 256] else init.values[0]
  }

  /** Byte address of a word of a core's block; word 0 is the core's own register. */
  function WordAt(base: nat, word: nat): nat {
    base + 4 * word
  }

  lemma WordAddressIs(base: nat, address: nat, channel: nat)
    ensures WordAddress(base, address, channel) == WordAt(base, address % 256 + 256 * channel)
  {
    hide And, Shl;
    Pow2Values();
    AndMask(address, 8);
    LowIsMod(address, 8, 0x100);
    ShlIsProduct(channel, 8);
  }

  lemma WordsInitialised(init: MemoryInit, channels: nat, i: nat)
    requires i < WordsOf(init, channels)
    ensures Initialises(init, channels, WordOf(init, channels, i))
    ensures PerChannel(init, channels) ==> WordOf(init, channels, i) / 256 == i
  {
  }

  /** Which of the words it is. */
  function Rank(init: MemoryInit, channels: nat, word: nat): nat {
    if PerChannel(init, channels) then word / 256 else 0
  }

  lemma RankOf(init: MemoryInit, channels: nat, word: nat)
    requires Initialises(init, channels, word)
    ensures Rank(init, channels, word) < WordsOf(init, channels)
    ensures WordOf(init, channels, Rank(init, channels, word)) == word
  {
  }

  lemma InitStoreAt(init: MemoryInit, base: nat, channels: nat, i: nat)
    requires Defined(init, channels) && i < WordsOf(init, channels)
    ensures |InitStores(init, base, channels)| == WordsOf(init, channels)
    ensures i < |init.values|
    ensures InitStores(init, base, channels)[i] == Store(WordAt(base, WordOf(init, channels, i)), init.values[i])
  {
    hide WordAddress;
    WordAddressIs(base, init.address, i);
  }

  lemma InitHits(init: MemoryInit, base: nat, channels: nat, word: nat)
    requires Defined(init, channels) && Initialises(init, channels, word)
    ensures ReadBack(InitStores(init, base, channels), WordAt(base, word)) == Some(InitialWord(init, channels, word))
  {
    hide InitStores;
    var stores, k := InitStores(init, base, channels), Rank(init, channels, word);
    RankOf(init, channels, word);
    InitStoreAt(init, base, channels, k);
    forall i, j | 0 <= i < j < |stores| ensures stores[i].address != stores[j].address {
      InitStoreAt(init, base, channels, i);
      InitStoreAt(init, base, channels, j);
    }
    ReadBackDistinct(stores, k);
  }

  /** What a core's initialisations say of a word of its block: the last one that writes it. */
  function MemoryWord(inits: seq<MemoryInit>, channels: nat, word: nat): Option<nat>
    requires AllDefined(inits, channels)
  {
    if inits == [] then None
    else
      var last := inits[|inits| - 1];
      assert Defined(last, channels);
      if Initialises(last, channels, word) then Some(InitialWord(last, channels, word))
      else MemoryWord(inits[..|inits| - 1], channels, word)
  }

  lemma InitReads(init: MemoryInit, base: nat, channels: nat, word: nat)
    requires Defined(init, channels)
    ensures ReadBack(InitStores(init, base, channels), WordAt(base, word))
         == if Initialises(init, channels, word) then Some(InitialWord(init, channels, word)) else None
  {
    hide InitStores, InitialWord;
    var stores := InitStores(init, base, channels);
    if Initialises(init, channels, word) {
      InitHits(init, base, channels, word);
    } else {
      InitShape(init, base, channels);
      forall i | 0 <= i < |stores| ensures stores[i].address != WordAt(base, word) {
        InitStoreAt(init, base, channels, i);
        WordsInitialised(init, channels, i);
      }
      ReadBackMissing(stores, WordAt(base, word));
    }
  }

  /** Every word of the block, initialised or not, is what the initialisations say of it. */
  lemma {:induction false} MemoryHolds(inits: seq<MemoryInit>, base: nat, channels: nat, word: nat)
    requires AllDefined(inits, channels)
    ensures ReadBack(MemoryStores(inits, base, channels), WordAt(base, word)) == MemoryWord(inits, channels, word)
  {
    hide InitStores, ReadBack, Initialises, InitialWord, PerChannel;
    if inits == [] {
      NothingRead(WordAt(base, word));
    } else {
      var n := |inits| - 1;
      MemoryHolds(inits[..n], base, channels, word);
      InitReads(inits[n], base, channels, word);
      ReadBackAppend(MemoryStores(inits[..n], base, channels), InitStores(inits[n], base, channels),
                     WordAt(base, word));
    }
  }

  lemma NothingRead(a: nat)
    ensures ReadBack([], a) == None
  {
  }

  /** An initialisation has the last word on what no later one writes. */
  lemma {:induction false} WordOfInit(inits: seq<MemoryInit>, channels: nat, k: nat, word: nat)
    requires AllDefined(inits, channels) && k < |inits| && Initialises(inits[k], channels, word)
    requires forall i :: k < i < |inits| ==> !Initialises(inits[i], channels, word)
    ensures Defined(inits[k], channels)
    ensures MemoryWord(inits, channels, word) == Some(InitialWord(inits[k], channels, word))
  {
    hide Initialises, InitialWord;
    assert inits[k] in inits;
    if k < |inits| - 1 { WordOfInit(inits[..|inits| - 1], channels, k, word); }
  }

  lemma InitShape(init: MemoryInit, base: nat, channels: nat)
    requires Defined(init, channels)
    ensures |InitStores(init, base, channels)| == WordsOf(init, channels)
  {
  }

  // ----- where a memory goes

  /** All words the initialisations write lie in bytes lo to hi of the block. */
  ghost predicate WordsInside(inits: seq<MemoryInit>, channels: nat, lo: nat, hi: nat) {
    forall init, word: nat :: init in inits && Initialises(init, channels, word) ==> lo <= 4 * word < hi
  }

  /** None of them does. */
  ghost predicate WordsOutside(inits: seq<MemoryInit>, channels: nat, lo: nat, hi: nat) {
    forall init, word: nat :: init in inits && Initialises(init, channels, word) ==> 4 * word < lo || hi <= 4 * word
  }

  /** The addresses written are those of the initialised words. */
  lemma {:induction false} StoresAreWords(inits: seq<MemoryInit>, base: nat, channels: nat)
    requires AllDefined(inits, channels)
    ensures forall s :: s in MemoryStores(inits, base, channels) ==> IsWord(inits, base, channels, s.address)
    ensures forall init, word: nat :: init in inits && Initialises(init, channels, word) ==>
      exists s :: s in MemoryStores(inits, base, channels) && s.address == WordAt(base, word)
  {
    hide InitStores, Initialises, WordAt;
    if inits != [] {
      var n := |inits| - 1;
      var front, own := MemoryStores(inits[..n], base, channels), InitStores(inits[n], base, channels);
      StoresAreWords(inits[..n], base, channels);
      assert inits == inits[..n] + [inits[n]];
      InitShape(inits[n], base, channels);
      forall s | s in own ensures IsWord(inits, base, channels, s.address) {
        var i :| 0 <= i < |own| && own[i] == s;
        InitStoreAt(inits[n], base, channels, i);
        WordsInitialised(inits[n], channels, i);
      }
      forall init, word: nat | init in inits && Initialises(init, channels, word)
        ensures exists s :: s in front + own && s.address == WordAt(base, word)
      {
        if init == inits[n] {
          RankOf(init, channels, word);
          InitStoreAt(init, base, channels, Rank(init, channels, word));
          assert own[Rank(init, channels, word)] in front + own;
        } else {
          var s :| s in front && s.address == WordAt(base, word);
          assert s in front + own;
        }
      }
    }
  }

  ghost predicate IsWord(inits: seq<MemoryInit>, base: nat, channels: nat, address: nat) {
    exists init, word: nat :: init in inits && Initialises(init, channels, word) && address == WordAt(base, word)
  }

  /** A core's memory stays in a part of its block exactly when every word it initialises does. */
  lemma MemoryInside(inits: seq<MemoryInit>, base: nat, channels: nat, lo: nat, hi: nat)
    requires AllDefined(inits, channels)
    ensures Inside(MemoryStores(inits, base, channels), base + lo, base + hi) <==> WordsInside(inits, channels, lo, hi)
  {
    hide MemoryStores, Initialises;
    var stores := MemoryStores(inits, base, channels);
    StoresAreWords(inits, base, channels);
    if Inside(stores, base + lo, base + hi) {
      forall init, word: nat | init in inits && Initialises(init, channels, word) ensures lo <= 4 * word < hi {
        var s :| s in stores && s.address == WordAt(base, word);
      }
    }
    if WordsInside(inits, channels, lo, hi) {
      forall i | 0 <= i < |stores| ensures base + lo <= stores[i].address < base + hi {
        assert stores[i] in stores;
      }
    }
  }

  /** It keeps off a part, the table or the constant engine, exactly when no word it initialises lies there. */
  lemma MemoryOutside(inits: seq<MemoryInit>, base: nat, channels: nat, lo: nat, hi: nat)
    requires AllDefined(inits, channels)
    ensures Outside(MemoryStores(inits, base, channels), base + lo, base + hi)
       <==> WordsOutside(inits, channels, lo, hi)
  {
    hide MemoryStores, Initialises;
    var stores := MemoryStores(inits, base, channels);
    StoresAreWords(inits, base, channels);
    if Outside(stores, base + lo, base + hi) {
      forall init, word: nat | init in inits && Initialises(init, channels, word)
        ensures 4 * word < lo || hi <= 4 * word
      {
        var s :| s in stores && s.address == WordAt(base, word);
      }
    }
    if WordsOutside(inits, channels, lo, hi) {
      forall i | 0 <= i < |stores| ensures stores[i].address < base + lo || base + hi <= stores[i].address {
        assert stores[i] in stores;
      }
    }
  }

  /** Memory addresses 1 to 255; address 0 is the core's own register. */
  ghost predicate Addressable(inits: seq<MemoryInit>) {
    forall init :: init in inits ==> 0 < init.address < 256
  }

  /** Four channels fill the room of a core's memory; more are harmless as long as no vector fills them all. */
  ghost predicate StaysInPlace(inits: seq<MemoryInit>, channels: nat) {
    channels <= 4 || forall init :: init in inits ==> !PerChannel(init, channels)
  }

  /**
   At addresses 1 to 255 a core's memory stays below the byte offset 0x1000 and off its own register if and only
   if it has at most four channels or no initialisation has one word per channel.
   */
  lemma MemoryRegion(inits: seq<MemoryInit>, base: nat, channels: nat)
    requires AllDefined(inits, channels) && Addressable(inits)
    ensures Inside(MemoryStores(inits, base, channels), base + 4, base + 0x1000) <==> StaysInPlace(inits, channels)
  {
    hide PerChannel, MemoryStores, Inside, Initialises;
    MemoryInside(inits, base, channels, 4, 0x1000);
    if StaysInPlace(inits, channels) {
      forall init, word: nat | init in inits && Initialises(init, channels, word) ensures 4 <= 4 * word < 0x1000 {
        WordInRoom(init, channels, word);
      }
    } else {
      var init :| init in inits && PerChannel(init, channels);
      FifthWord(init, channels);
      assert 4 * (init.address + 1024) >= 0x1000;
    }
  }

  lemma WordInRoom(init: MemoryInit, channels: nat, word: nat)
    requires 0 < init.address < 256 && (channels <= 4 || !PerChannel(init, channels))
    requires Initialises(init, channels, word)
    ensures 4 <= 4 * word < 0x1000
  {
  }

  lemma FifthWord(init: MemoryInit, channels: nat)
    requires 0 < init.address < 256 && channels > 4 && PerChannel(init, channels)
    ensures Initialises(init, channels, init.address + 1024)
  {
  }
}

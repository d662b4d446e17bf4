/** Every run of block connections and disconnections that starts at the genesis block. */
module LedgerRuns {
  import opened Coins
  import opened Ledger
  import opened LedgerInverse
  import opened Supply
  import opened Wear

  /** A block with the rules its index entry selects. */
  datatype Link = Link(rules: Rules, block: Block)

  /** Heights at which the subsidy shift is defined. */
  predicate HeightInRange(height: nat) { height / HALVING_INTERVAL < 64 }

  /**
   The set reached by connecting a chain of blocks from scratch; links[i] has height i + 1, since the genesis block
   is connected without its transactions.
   */
  function Replay(links: seq<Link>): Option<Connected>
  {
    if links == [] then Some(Connected(map[], [], 0))
    else
      var n := |links| - 1;
      match Replay(links[..n])
      case None => None
      case Some(c) =>
        if HeightInRange(n + 1) && CheckBlock(links[n].block)
        then ConnectBlock(links[n].rules, c.utxo, links[n].block, n + 1)
        else None
  }

  ghost predicate Bip30Enforced(links: seq<Link>)
  {
    forall i :: 0 <= i < |links| ==> links[i].rules.enforceBip30
  }

  lemma {:induction false} ReplayPrefix(links: seq<Link>, k: nat)
    requires Replay(links).Some? && k <= |links|
    ensures Replay(links[..k]).Some?
  {
    hide ConnectBlock;
    if k < |links| {
      ReplayPrefix(links[..|links| - 1], k);
      assert links[..|links| - 1][..k] == links[..k];
    } else {
      assert links[..k] == links;
    }
  }

  /** The set of a chain is valid, worth at most what its blocks were allowed to issue, and below MAX_MONEY. */
  lemma {:induction false} ReplaySupply(links: seq<Link>)
    requires Replay(links).Some?
    ensures ValidUtxo(Replay(links).value.utxo)
    ensures HeightInRange(|links|)
    ensures 0 <= Total(Replay(links).value.utxo) <= Issued(|links|) < MAX_MONEY
  {
    hide ConnectBlock;
    if links != [] {
      var n := |links| - 1;
      ReplaySupply(links[..n]);
      var u := Replay(links[..n]).value.utxo;
      ConnectBlockTotal(links[n].rules, u, links[n].block, n + 1);
      ConnectBlockValid(links[n].rules, u, links[n].block, n + 1);
    }
    TotalNotNegative(Replay(links).value.utxo);
    IssuedBelowMaxMoney(|links|);
  }

  lemma ConnectBlockValid(rules: Rules, u: Utxo, block: Block, height: nat)
    requires ValidUtxo(u) && 0 < height && HeightInRange(height) && CheckBlock(block)
    requires ConnectBlock(rules, u, block, height).Some?
    ensures ValidUtxo(ConnectBlock(rules, u, block, height).value.utxo)
  {
    ConnectTxsEffect(rules, u, block.vtx, height);
  }

  /** Disconnecting the last block of a chain gives exactly the set of the chain without it. */
  lemma ReplayBack(links: seq<Link>)
    requires links != [] && Replay(links).Some? && links[|links| - 1].rules.enforceBip30
    ensures Replay(links[..|links| - 1]).Some?
    ensures DisconnectBlock(Replay(links).value.utxo, links[|links| - 1].block, |links|, Replay(links).value.undo)
              == Some(Undone(Replay(links[..|links| - 1]).value.utxo, true))
  {
    hide ConnectBlock, DisconnectBlock;
    var n := |links| - 1;
    ReplaySupply(links[..n]);
    DisconnectUndoesConnect(links[n].rules, Replay(links[..n]).value.utxo, links[n].block, n + 1);
  }

  /** The blocks of a chain, one after the other, have no transaction with a negative version. */
  predicate NoNegativeChain(links: seq<Link>)
  {
    forall i :: 0 <= i < |links| ==> NoNegativeVersion(links[i].block.vtx)
  }

  lemma {:induction false} ReplayVersions(links: seq<Link>)
    requires Replay(links).Some? && NoNegativeChain(links)
    ensures AllStored(Replay(links).value.utxo)
  {
    hide ConnectBlock, NoNegativeVersion, AllStored;
    if links == [] {
      EmptyIsStored();
    } else {
      var n := |links| - 1;
      ReplayVersions(links[..n]);
      BlockVersions(links[n].rules, Replay(links[..n]).value.utxo, links[n].block, n + 1);
    }
  }

  lemma EmptyIsStored()
    ensures AllStored(map[])
  {
  }

  // ----- runs -----

  datatype Entry = Entry(link: Link, undo: seq<TxUndo>)

  datatype State = State(utxo: Utxo, chain: seq<Entry>)

  /** Store: the coins are written to disk and read again from there. */
  datatype Event = Connect(link: Link) | Disconnect | Store

  const GENESIS := State(map[], [])

  function Tip(s: State): Block
    requires s.chain != []
  {
    s.chain[|s.chain| - 1].link.block
  }

  /** The last block disconnected with the undo data stored for it. */
  function TipUndone(s: State): Option<Undone>
    requires s.chain != []
  {
    DisconnectBlock(s.utxo, Tip(s), |s.chain|, s.chain[|s.chain| - 1].undo)
  }

  /**
   One event.  A block that fails its checks, and a disconnection that is refused or finds something amiss, change
   nothing: the view they worked on is discarded.  Undo data are kept in their stored form.  None stands for what the
   original does not define, a subsidy shift beyond 63.
   */
  function Step(s: State, e: Event): Option<State>
  {
    match e
    case Connect(link) =>
      var height := |s.chain| + 1;
      if !HeightInRange(height) then None
      else if !CheckBlock(link.block) then Some(s)
      else
        (match ConnectBlock(link.rules, s.utxo, link.block, height)
         case None => Some(s)
         case Some(c) => Some(State(c.utxo, s.chain + [Entry(link, StoredUndos(c.undo))])))
    case Disconnect =>
      if s.chain == [] then Some(s)
      else
        (match TipUndone(s)
         case None => Some(s)
         case Some(u) => if u.clean then Some(State(u.utxo, s.chain[..|s.chain| - 1])) else Some(s))
    case Store => Some(s.(utxo := Stored(s.utxo)))
  }

  function Run(events: seq<Event>): Option<State>
  {
    if events == [] then Some(GENESIS)
    else
      match Run(events[..|events| - 1])
      case None => None
      case Some(s) => Step(s, events[|events| - 1])
  }

  function Links(chain: seq<Entry>): seq<Link>
  {
    seq(|chain|, i requires 0 <= i < |chain| => chain[i].link)
  }

  /**
   Set and undo records are, but for wear, those of the replay of the connected chain; the records have been stored.
   */
  ghost predicate Consistent(s: State)
  {
    && Replay(Links(s.chain)).Some?
    && WornSet(s.utxo, Replay(Links(s.chain)).value.utxo)
    && Bip30Enforced(Links(s.chain))
    && forall k :: 0 < k <= |s.chain| ==> RecordOk(Links(s.chain)[..k], s.chain[k - 1].undo)
  }

  /** Undo data of the last block of a chain: those of its replay but for wear, and stored. */
  ghost predicate RecordOk(links: seq<Link>, undo: seq<TxUndo>)
  {
    Replay(links).Some? && WornUndos(undo, Replay(links).value.undo) && UndosStored(undo)
  }

  ghost predicate EventsEnforceBip30(events: seq<Event>)
  {
    forall i :: 0 <= i < |events| && events[i].Connect? ==> events[i].link.rules.enforceBip30
  }

  lemma ConnectKeepsConsistent(s: State, link: Link)
    requires Consistent(s) && link.rules.enforceBip30 && Step(s, Connect(link)).Some?
    ensures Consistent(Step(s, Connect(link)).value)
  {
    hide ConnectBlock, Replay, WornSet, WornUndos, UndosStored, CheckBlock;
    var s' := Step(s, Connect(link)).value;
    if s' != s {
      var n := |s.chain|;
      var links, links' := Links(s.chain), Links(s'.chain);
      assert links'[..n] == links && links'[n] == link;
      assert forall i :: 0 <= i < n ==> links'[i] == links[i];
      ConnectExtendsReplay(s, link, links');
      forall k | 0 < k <= n + 1
        ensures RecordOk(links'[..k], s'.chain[k - 1].undo)
      {
        if k <= n {
          assert links'[..k] == links[..k];
          assert s'.chain[k - 1] == s.chain[k - 1];
        } else {
          assert links'[..k] == links';
        }
      }
    }
  }

  /** The block that connects to the worn set connects to the replay, with the same effect but for wear. */
  lemma ConnectExtendsReplay(s: State, link: Link, links: seq<Link>)
    requires Replay(Links(s.chain)).Some? && WornSet(s.utxo, Replay(Links(s.chain)).value.utxo)
    requires links != [] && links[..|links| - 1] == Links(s.chain) && links[|links| - 1] == link
    requires HeightInRange(|links|) && CheckBlock(link.block)
    requires ConnectBlock(link.rules, s.utxo, link.block, |links|).Some?
    ensures Replay(links).Some?
    ensures var c := ConnectBlock(link.rules, s.utxo, link.block, |links|).value;
            && WornSet(c.utxo, Replay(links).value.utxo)
            && WornUndos(StoredUndos(c.undo), Replay(links).value.undo) && UndosStored(StoredUndos(c.undo))
  {
    hide ConnectBlock, WornSet, WornUndos, UndosStored;
    var o := Replay(Links(s.chain)).value.utxo;
    WornConnectBlock(link.rules, s.utxo, o, link.block, |links|);
    StoredUndoStaysWorn(ConnectBlock(link.rules, s.utxo, link.block, |links|).value.undo, Replay(links).value.undo);
  }

  /** The chain without its last block. */
  function Below(s: State): (links: seq<Link>)
    requires s.chain != []
    ensures links == Links(s.chain)[..|s.chain| - 1]
  {
    Links(s.chain[..|s.chain| - 1])
  }

  /** What the next disconnection does in a consistent state. */
  lemma DisconnectTip(s: State)
    requires Consistent(s) && s.chain != []
    ensures TipUndone(s).Some? && Replay(Below(s)).Some?
    ensures WornSet(TipUndone(s).value.utxo, Replay(Below(s)).value.utxo)
    ensures TipUndone(s).value.clean <==> AllIntact(s.utxo, Tip(s).vtx)
  {
    hide ConnectBlock, DisconnectBlock, WornSet, WornUndos, UndosStored, AllStored, NoNegativeVersion, ValidUtxo,
      AllIntact;
    var n := |s.chain| - 1;
    var links := Links(s.chain);
    assert links[..n + 1] == links && links[n] == s.chain[n].link;
    ReplaySupply(Below(s));
    WornDisconnect(links[n].rules, Replay(Below(s)).value.utxo, links[n].block, n + 1, s.utxo, s.chain[n].undo);
  }

  lemma PopKeepsConsistent(s: State, u: Utxo)
    requires Consistent(s) && s.chain != [] && Replay(Below(s)).Some? && WornSet(u, Replay(Below(s)).value.utxo)
    ensures Consistent(State(u, s.chain[..|s.chain| - 1]))
  {
    hide Replay, WornSet, WornUndos, UndosStored;
    var n := |s.chain| - 1;
    assert forall i :: 0 <= i < n ==> Below(s)[i] == Links(s.chain)[i];
    forall k | 0 < k <= n ensures Below(s)[..k] == Links(s.chain)[..k] {
    }
  }

  /**
   In a consistent state a disconnection succeeds if and only if every transaction of the tip with a negative version
   still has that version in the set; once the coins have been to disk, if and only if there is none.  Otherwise it is
   refused and nothing changes.
   */
  lemma DisconnectIsClean(s: State)
    requires Consistent(s) && s.chain != []
    ensures var s' := Step(s, Disconnect).value;
            var popped := s'.chain == s.chain[..|s.chain| - 1];
            && Consistent(s') && (popped || s' == s)
            && (popped <==> AllIntact(s.utxo, Tip(s).vtx))
            && (NoNegativeVersion(Tip(s).vtx) ==> popped)
            && (AllStored(s.utxo) ==> (popped <==> NoNegativeVersion(Tip(s).vtx)))
  {
    hide Consistent, TipUndone, WornSet, AllStored, NoNegativeVersion, Replay, AllIntact;
    DisconnectTip(s);
    StoredIntact(s.utxo, Tip(s).vtx);
    PopKeepsConsistent(s, TipUndone(s).value.utxo);
  }

  lemma {:induction false} RunsAreConsistent(events: seq<Event>)
    requires EventsEnforceBip30(events) && Run(events).Some?
    ensures Consistent(Run(events).value)
  {
    if events == [] {
      assert Links([]) == [];
    } else {
      var prefix, e := events[..|events| - 1], events[|events| - 1];
      RunsAreConsistent(prefix);
      StepKeepsConsistent(Run(prefix).value, e);
    }
  }

  lemma StepKeepsConsistent(s: State, e: Event)
    requires Consistent(s) && (e.Connect? ==> e.link.rules.enforceBip30) && Step(s, e).Some?
    ensures Consistent(Step(s, e).value)
  {
    hide Consistent, TipUndone, ConnectBlock;
    match e
    case Connect(link) => ConnectKeepsConsistent(s, link);
    case Disconnect =>
      if s.chain != [] {
        DisconnectIsClean(s);
      }
    case Store => StoreKeepsConsistent(s);
  }

  lemma StoreKeepsConsistent(s: State)
    requires Consistent(s)
    ensures Consistent(s.(utxo := Stored(s.utxo)))
  {
    hide Replay, WornUndos, UndosStored;
    StoredIsWorn(s.utxo, Replay(Links(s.chain)).value.utxo);
  }

  /**
   Over every run: the unspent set is, but for wear, that of the chain now connected, and exactly that if no connected
   transaction has a negative version; its value never exceeds the subsidies up to the tip and stays below MAX_MONEY.
   */
  lemma SupplyOverRuns(events: seq<Event>)
    requires EventsEnforceBip30(events) && Run(events).Some?
    ensures var s := Run(events).value;
            && Replay(Links(s.chain)).Some?
            && WornSet(s.utxo, Replay(Links(s.chain)).value.utxo)
            && (NoNegativeChain(Links(s.chain)) ==> s.utxo == Replay(Links(s.chain)).value.utxo)
            && HeightInRange(|s.chain|)
            && 0 <= Total(s.utxo) <= Issued(|s.chain|) < MAX_MONEY
  {
    hide Replay, NoNegativeChain;
    RunsAreConsistent(events);
    var s := Run(events).value;
    var links := Links(s.chain);
    ReplaySupply(links);
    TotalWorn(s.utxo, Replay(links).value.utxo);
    if NoNegativeChain(links) {
      ReplayVersions(links);
      NothingWears(s.utxo, Replay(links).value.utxo);
    }
  }

  /** A run of three events after which the tip can no longer be disconnected. */
  lemma StuckRun(rules: Rules)
    requires rules.enforceBip30 && rules.engine.legacySigOps(STUCK_COINBASE) <= MAX_BLOCK_SIGOPS
    ensures var events := [Connect(Link(rules, Block([STUCK_COINBASE]))), Store];
            && Run(events).Some? && |Run(events).value.chain| == 1
            && Step(Run(events).value, Disconnect) == Some(Run(events).value)
  {
    hide ConnectBlock, DisconnectBlock, CheckBlock, Stored, StoredUndos;
    NegativeVersionIsStuck(rules);
    var link := Link(rules, Block([STUCK_COINBASE]));
    var c := ConnectBlock(rules, map[], link.block, 1).value;
    var events := [Connect(link), Store];
    var s1 := State(c.utxo, [Entry(link, StoredUndos(c.undo))]);
    assert Step(GENESIS, Connect(link)) == Some(s1) by {
      assert [] + [Entry(link, StoredUndos(c.undo))] == [Entry(link, StoredUndos(c.undo))];
    }
    assert events[..1] == [Connect(link)] && [Connect(link)][..0] == [];
    assert Run([]) == Some(GENESIS);
    assert Run([Connect(link)]) == Some(s1);
    assert Run(events) == Some(s1.(utxo := Stored(c.utxo)));
  }
}

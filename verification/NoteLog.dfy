// The note events of the log, decoded in order, are exactly the leaves of the stored tree.
module NoteLog {
  import opened Wrappers
  import opened Types
  import opened Ledger
  import NT = NoteTree

  // Leaves announced by one event, in insertion order.
  function LeavesIn(host: Host, ev: Event): seq<Word> {
    match ev
    case Shielded(note) => [NoteLeaf(host, note)]
    case NoteInserted(note) => [NoteLeaf(host, note)]
    case Settled(noteA, noteB) => [NoteLeaf(host, noteA), NoteLeaf(host, noteB)]
    case _ => []
  }

  function Leaves(host: Host, events: seq<Event>): seq<Word> {
    if events == [] then [] else Leaves(host, events[..|events| - 1]) + LeavesIn(host, events[|events| - 1])
  }

  lemma {:induction false} LeavesAppend(host: Host, events: seq<Event>, ev: Event)
    ensures Leaves(host, events + [ev]) == Leaves(host, events) + LeavesIn(host, ev)
  {
    assert (events + [ev])[..|events|] == events;
  }

  // The stored tree stands for a leaf sequence, as long as the tree has room for it.
  ghost predicate Tracks(host: Host, tree: NT.Tree, leaves: seq<Word>) {
    tree.next == |leaves| && (|leaves| <= NT.CAPACITY ==> NT.Agrees(host.compress, tree, leaves))
  }

  ghost predicate NotesOk(host: Host, st: State) {
    Tracks(host, st.tree, Leaves(host, st.events))
  }

  lemma {:induction false} InsertTracks(host: Host, tree: NT.Tree, leaves: seq<Word>, leaf: Word)
    requires Tracks(host, tree, leaves)
    ensures Tracks(host, NT.Insert(host.compress, tree, leaf), leaves + [leaf])
  {
    if |leaves| < NT.CAPACITY {
      NT.InsertAgrees(host.compress, tree, leaves, leaf);
    }
  }

  lemma {:induction false} LogKeepsNotes(host: Host, st: State, ev: Event)
    requires NotesOk(host, st) && LeavesIn(host, ev) == []
    ensures NotesOk(host, Log(st, ev))
  {
    LeavesAppend(host, st.events, ev);
    assert Leaves(host, st.events) + [] == Leaves(host, st.events);
  }

  lemma {:induction false} AnnounceKeepsNotes(host: Host, st: State, note: Note, ev: Event)
    requires NotesOk(host, st) && LeavesIn(host, ev) == [NoteLeaf(host, note)]
    ensures NotesOk(host, Log(InsertNote(host, st, note), ev))
  {
    LeavesAppend(host, st.events, ev);
    InsertTracks(host, st.tree, Leaves(host, st.events), NoteLeaf(host, note));
  }

  lemma {:induction false} MintKeepsNotes(host: Host, st: State, note: Note)
    requires NotesOk(host, st)
    ensures NotesOk(host, Mint(host, st, note))
  {
    if note.amount != 0 {
      AnnounceKeepsNotes(host, st, note, NoteInserted(note));
    }
  }

  lemma {:induction false} ExchangeKeepsNotes(host: Host, st: State, a: Order, b: Order)
    requires NotesOk(host, st)
    ensures NotesOk(host, Exchange(host, st, a, b))
  {
    var noteA, noteB := Note(a.assetOut, b.amountIn, a.outputTag), Note(b.assetOut, a.amountIn, b.outputTag);
    var leaves := Leaves(host, st.events);
    var leafA, leafB := NoteLeaf(host, noteA), NoteLeaf(host, noteB);
    LeavesAppend(host, st.events, Settled(noteA, noteB));
    InsertTracks(host, st.tree, leaves, leafA);
    InsertTracks(host, NT.Insert(host.compress, st.tree, leafA), leaves + [leafA], leafB);
    assert leaves + [leafA] + [leafB] == leaves + [leafA, leafB];
  }
}

/** What an eviction policy knows about a resident slot, in its queues or detached from them, and how
    selection, a hit and a restored admission change it. */
module Notes {
  import opened Machine
  import opened Policies

  /** CLOCK keeps a visited bit, S3-FIFO a queue and a frequency. */
  datatype Mark = Visited(visited: bool) | Queued(main: bool, frequency: nat)

  datatype Note = Note(hash: u64, weight: nat, mark: Mark)

  /** A resident that a selection passed by: it lost chances, or moved from the small to the main queue.
      While it stays in the small queue nothing about it changes. */
  predicate Milder(a: Note, b: Note) {
    && a.hash == b.hash && a.weight == b.weight
    && match (a.mark, b.mark)
       case (Visited(v), Visited(v')) => v' ==> v
       case (Queued(main, frequency), Queued(main', frequency')) =>
         (main ==> main') && frequency' <= frequency && (!main' ==> b == a)
       case _ => false
  }

  /** Selection tracks the same residents, each at most as well protected as before. */
  ghost predicate Eased(a: map<nat, Note>, b: map<nat, Note>) {
    && (forall k :: k in a <==> k in b)
    && (forall k :: k in a && k in b ==> Milder(a[k], b[k]))
  }

  /** A victim has no chance left. */
  predicate Spent(note: Note) {
    match note.mark
    case Visited(visited) => !visited
    case Queued(main, frequency) => if main then frequency == 0 else frequency < S3FIFO_MOVE_TO_MAIN_THRESHOLD
  }

  /** What a detached resident comes back as: S3-FIFO returns it to its queue with its frequency, CLOCK
      gives it a second chance. */
  function Returned(note: Note): Note {
    if note.mark.Visited? then note.(mark := Visited(true)) else note
  }

  /** A hit sets the visited bit, or raises the frequency up to its limit. */
  function Touched(note: Note): Note {
    match note.mark
    case Visited(_) => note.(mark := Visited(true))
    case Queued(main, frequency) =>
      note.(mark := Queued(main, if frequency < S3FIFO_MAX_FREQUENCY then frequency + 1 else frequency))
  }

  lemma MilderTwice(a: Note, b: Note, c: Note)
    requires Milder(a, b) && Milder(b, c)
    ensures Milder(a, c)
  {
  }

  lemma EasedSelf(a: map<nat, Note>)
    ensures Eased(a, a)
  {
  }
}

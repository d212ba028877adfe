/** Shapes shared by every part of the model. */
module Common {
  /** An optional value: a nullable column or a lookup that may miss. */
  datatype Option<+T> = None | Some(value: T)

  /** Instants and durations in microseconds, the resolution of Python's datetime. */
  type Time = int

  const SECOND: Time := 1_000_000

  /** A run of a service: where the store stood at first, and the calls made on it since,
      oldest innermost. A worker that crashes simply makes no further call. */
  datatype History<S, O> = Start(origin: S) | Then(past: History<S, O>, op: O)

  /** `h` is `g` followed by any number of further calls. */
  ghost predicate Extends<S, O>(h: History<S, O>, g: History<S, O>)
    decreases h
  {
    h == g || (h.Then? && Extends(h.past, g))
  }

  ghost predicate StartsFrom<S, O>(h: History<S, O>, origin: S)
    decreases h
  {
    match h
    case Start(s) => s == origin
    case Then(past, _) => StartsFrom(past, origin)
  }

  /** The latest clock reading in a run, if each call ends at the instant `ends` gives. */
  ghost function LastReading<S, O>(h: History<S, O>, ends: O -> Option<Time>): Option<Time> {
    match h
    case Start(_) => None
    case Then(past, op) => if ends(op).Some? then ends(op) else LastReading(past, ends)
  }

  /** The clock never goes back, from one call to the next or within a call. */
  ghost predicate NeverBack<S, O>(h: History<S, O>, starts: O -> Option<Time>, ends: O -> Option<Time>) {
    h.Then? ==>
      && NeverBack(h.past, starts, ends)
      && (starts(h.op).Some? && LastReading(h.past, ends).Some? ==>
            LastReading(h.past, ends).value <= starts(h.op).value)
      && (starts(h.op).Some? && ends(h.op).Some? ==> starts(h.op).value <= ends(h.op).value)
  }

  /** ORDER BY rank, identifier. */
  predicate Precedes(rank: nat -> Time, a: nat, b: nat) {
    rank(a) < rank(b) || (rank(a) == rank(b) && a < b)
  }

  predicate IsEarliest(rank: nat -> Time, ids: set<nat>, m: nat) {
    m in ids && forall x | x in ids && x != m :: Precedes(rank, m, x)
  }

  lemma EarliestExists(rank: nat -> Time, ids: set<nat>)
    requires ids != {}
    ensures exists m :: IsEarliest(rank, ids, m)
    decreases ids
  {
    var x :| x in ids;
    var rest := ids - {x};
    if rest == {} {
      assert ids == {x};
      assert IsEarliest(rank, ids, x);
    } else {
      EarliestExists(rank, rest);
      var m :| IsEarliest(rank, rest, m);
      var first := if Precedes(rank, x, m) then x else m;
      forall y | y in ids && y != first ensures Precedes(rank, first, y) {
        assert y == x || y == m || Precedes(rank, m, y);
      }
      assert IsEarliest(rank, ids, first);
    }
  }

  function Earliest(rank: nat -> Time, ids: set<nat>): (m: nat)
    requires ids != {}
    ensures IsEarliest(rank, ids, m)
  {
    EarliestExists(rank, ids);
    var m :| m in ids && IsEarliest(rank, ids, m);
    m
  }
}

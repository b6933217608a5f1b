/** Small shared vocabulary: optional values, slices and concatenations, flattening, loops that can be stopped. */
module Common {

  datatype Option<+T> = None | Some(value: T)

  lemma ConcatAssoc<T>(a: seq<T>, b: seq<T>, c: seq<T>)
    ensures a + b + c == a + (b + c)
  {
  }

  lemma DropDrop<T>(s: seq<T>, a: nat, b: nat)
    requires a + b <= |s|
    ensures s[a..][b..] == s[a + b..]
  {
  }

  lemma DropTake<T>(s: seq<T>, a: nat, b: nat)
    requires a + b <= |s|
    ensures s[a..][..b] == s[a..a + b]
  {
  }

  lemma Parts<T>(a: seq<T>, b: seq<T>)
    ensures (a + b)[..|a|] == a && (a + b)[|a|..] == b
  {
  }

  /** The concatenation of all the sequences in `parts`, in order. */
  function Flatten<T>(parts: seq<seq<T>>): (r: seq<T>)
  {
    if parts == [] then [] else parts[0] + Flatten(parts[1..])
  }

  lemma {:induction false} FlattenConcat<T>(a: seq<seq<T>>, b: seq<seq<T>>)
    ensures Flatten(a + b) == Flatten(a) + Flatten(b)
  {
    if a == [] {
      assert a + b == b;
    } else {
      assert (a + b)[1..] == a[1..] + b;
      FlattenConcat(a[1..], b);
    }
  }

  // Loops over the keys of a map in ascending order that read a stop flag before each key.

  /** The keys below `id`: the reads of the flag before its turn. */
  function Rank<T>(entries: map<nat, T>, id: nat): nat
  {
    if id == 0 then 0 else Rank(entries, id - 1) + if id - 1 in entries then 1 else 0
  }

  lemma {:induction false} RankGrows<T>(entries: map<nat, T>, id: nat, later: nat)
    requires id <= later
    ensures Rank(entries, id) <= Rank(entries, later)
    decreases later - id
  {
    if id < later { RankGrows(entries, id, later - 1); }
  }

  /** How many more times the flag is found lowered after the turns of the keys below `limit`. */
  function Left<T>(entries: map<nat, T>, life: nat, limit: nat): nat
  {
    if Rank(entries, limit) <= life then life - Rank(entries, limit) else 0
  }
}

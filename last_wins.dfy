// Which entry of a key the parse keeps: the one read last.
// `EntitiesRead` lists the entities in text order; the store the main loop builds
// is that list stored one entity after another.

module LastWins {
  import opened Outcomes
  import opened Props
  import opened Tree
  import opened LolParser
  import opened EntityLaws

  /** The entities the main loop reads from `s`, in the order of the text. */
  function EntitiesRead(s: string): (r: Result<seq<(string, Entry)>>)
    decreases |s|
  {
    var more :- NextEntity(s);
    if !more.node then Ok([])
    else
      var e :- ReadEntity(more.rest);
      var later :- EntitiesRead(e.rest);
      Ok([e.node] + later)
  }

  /** `data` with the entities `es` stored one after another. */
  function StoreAll(data: Props<Entry>, es: seq<(string, Entry)>): Props<Entry>
    decreases |es|
  {
    if es == [] then data else StoreAll(Store(data, es[0].0, es[0].1), es[1..])
  }

  /** The entry of the last of `es` whose key is `k`, if there is one. */
  function LastEntry(es: seq<(string, Entry)>, k: string): Option<Entry>
    decreases |es|
  {
    if es == [] then None
    else if LastEntry(es[1..], k).Some? then LastEntry(es[1..], k)
    else if es[0].0 == k then Some(es[0].1)
    else None
  }

  /** `LastEntry` finds an entity of key `k` that no later entity of `k` follows, and finds none only when no entity has key `k`. */
  lemma {:induction false} LastEntryIsLast(es: seq<(string, Entry)>, k: string)
    ensures LastEntry(es, k).None? <==> forall i :: 0 <= i < |es| ==> es[i].0 != k
    ensures LastEntry(es, k).Some? ==>
      exists i :: 0 <= i < |es| && es[i] == (k, LastEntry(es, k).value) && forall j :: i < j < |es| ==> es[j].0 != k
    decreases |es|
  {
    if es != [] {
      LastEntryIsLast(es[1..], k);
      assert forall i :: 0 < i < |es| ==> es[i] == es[1..][i - 1];
      if LastEntry(es[1..], k).Some? {
        var i :| 0 <= i < |es[1..]| && es[1..][i] == (k, LastEntry(es[1..], k).value) &&
          forall j :: i < j < |es[1..]| ==> es[1..][j].0 != k;
        assert es[i + 1] == es[1..][i];
        assert forall j :: i + 1 < j < |es| ==> es[j] == es[1..][j - 1];
      } else if es[0].0 == k {
        assert es[0] == (k, LastEntry(es, k).value);
      } else {
        assert forall i :: 0 <= i < |es| ==> es[i].0 != k by {
          forall i | 0 <= i < |es| ensures es[i].0 != k {
            if i > 0 {
              assert es[i] == es[1..][i - 1];
            }
          }
        }
      }
    }
  }

  /** The main loop stores exactly the entities it reads, in order, and fails exactly when reading them fails. */
  lemma {:induction false} EntitiesStoreAll(s: string, data: Props<Entry>)
    ensures EntitiesRead(s).Ok? ==> Entities(s, data) == Ok(StoreAll(data, EntitiesRead(s).value))
    ensures EntitiesRead(s).Err? ==> Entities(s, data) == Err(EntitiesRead(s).error)
    decreases |s|
  {
    var more := NextEntity(s);
    if more.Ok? && more.value.node {
      var e := ReadEntity(more.value.rest);
      if e.Ok? {
        var d := Store(data, e.value.node.0, e.value.node.1);
        EntitiesStoreAll(e.value.rest, d);
        var later := EntitiesRead(e.value.rest);
        if later.Ok? {
          var es := [e.value.node] + later.value;
          assert es[0] == e.value.node && es[1..] == later.value;
        }
      }
    }
  }

  /** After the entities `es`, a key holds the entry of its last entity in `es`, or what it held before. */
  lemma {:induction false} StoreAllGet(data: Props<Entry>, es: seq<(string, Entry)>, k: string)
    ensures Get(StoreAll(data, es), k) == if LastEntry(es, k).Some? then LastEntry(es, k) else Get(data, k)
    decreases |es|
  {
    if es != [] {
      StoreGet(data, es[0].0, es[0].1, k);
      StoreAllGet(Store(data, es[0].0, es[0].1), es[1..], k);
    }
  }

  /** A redefined key keeps its last definition: the parsed entry of `k` is that of the last entity of `k` in the text. */
  lemma ParseLastWins(text: string, k: string)
    ensures ParseL20n(text).Ok? <==> EntitiesRead(text).Ok?
    ensures ParseL20n(text).Ok? ==> Get(ParseL20n(text).value, k) == LastEntry(EntitiesRead(text).value, k)
  {
    EntitiesStoreAll(text, []);
    if EntitiesRead(text).Ok? {
      StoreAllGet([], EntitiesRead(text).value, k);
    }
  }
}

/** Confirmation results and how the Confirmer batches them. */
module ConfirmerSpec {
  import opened Wrappers

  const BATCH_SIZE := 100

  datatype ConfirmResult = ConfirmResult(id: Id, ok: bool)

  function Flatten<T>(ss: seq<seq<T>>): seq<T>
  {
    if ss == [] then [] else ss[0] + Flatten(ss[1..])
  }

  lemma Associative<T>(a: seq<T>, b: seq<T>, c: seq<T>)
    ensures a + (b + c) == a + b + c
  {
  }

  lemma {:induction false} FlattenAppend<T>(a: seq<seq<T>>, b: seq<seq<T>>)
    ensures Flatten(a + b) == Flatten(a) + Flatten(b)
  {
    if a == [] {
      assert a + b == b;
    } else {
      assert (a + b)[1..] == a[1..] + b;
      FlattenAppend(a[1..], b);
    }
  }

  lemma FlattenSnoc<T>(ss: seq<seq<T>>, s: seq<T>)
    ensures Flatten(ss + [s]) == Flatten(ss) + s
  {
    FlattenAppend(ss, [s]);
    assert Flatten([s]) == s;
  }

  lemma FlattenContains<T>(ss: seq<seq<T>>, k: nat, x: T)
    requires k < |ss| && x in ss[k]
    ensures x in Flatten(ss)
  {
    assert ss == ss[..k] + [ss[k]] + ss[k + 1..];
    FlattenAppend(ss[..k] + [ss[k]], ss[k + 1..]);
    FlattenSnoc(ss[..k], ss[k]);
  }

  /** The ids handleConfirmation reports as sent, in order. */
  function DeliveredIds(results: seq<ConfirmResult>): seq<Id>
  {
    if results == [] then []
    else (if results[0].ok then [results[0].id] else []) + DeliveredIds(results[1..])
  }

  lemma {:induction false} DeliveredIdsMeaning(results: seq<ConfirmResult>, id: Id)
    ensures id in DeliveredIds(results) <==> ConfirmResult(id, true) in results
  {
    if results != [] {
      DeliveredIdsMeaning(results[1..], id);
      assert results == [results[0]] + results[1..];
    }
  }
}

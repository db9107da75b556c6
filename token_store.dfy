/** The token file: one flat JSON object that holds the tokens of both twins. */
module TokenStore {
  import opened Text
  import opened Twins

  /** A JSON value held in the token file. `SNull` is JSON null (written when a token reply
      lacks a field); `SInstant(t)` stands for the ISO-8601 rendering of instant `t`. */
  datatype Stored = SText(s: string) | SNull | SInstant(t: int)

  /** The map left after dropping every key that starts with `p`. */
  function WithoutPrefix(m: map<string, Stored>, p: string): (r: map<string, Stored>)
    ensures forall k :: k in r <==> k in m && !StartsWith(k, p)
    ensures forall k :: k in r ==> r[k] == m[k]
  {
    map k | k in m && !StartsWith(k, p) :: m[k]
  }

  /** Every key of `u` is namespaced to twin `t`. */
  predicate OwnedBy(u: map<string, Stored>, t: Twin) {
    forall k :: k in u ==> StartsWith(k, t.Name() + "_")
  }

  /** Saving an update that only holds twin `t`'s keys leaves every key of the other twin
      present with its old value: the merge is what keeps twin B's tokens on a twin A save. */
  lemma {:induction false} SaveKeepsOtherTwin(m: map<string, Stored>, u: map<string, Stored>, t: Twin)
    requires OwnedBy(u, t)
    ensures forall k :: k in m && StartsWith(k, t.Other().Name() + "_") ==> k in m + u && (m + u)[k] == m[k]
  {
    forall k | k in m && StartsWith(k, t.Other().Name() + "_")
      ensures k in m + u && (m + u)[k] == m[k]
    {
      NamesDiffer(t);
      if k in u {
        DistinctPrefixes(k, t.Name(), t.Other().Name());
      }
    }
  }

  /** Removing twin `t`'s keys leaves every key of the other twin present with its old value. */
  lemma {:induction false} RemoveKeepsOtherTwin(m: map<string, Stored>, t: Twin)
    ensures forall k :: k in m && StartsWith(k, t.Other().Name() + "_") ==>
      k in WithoutPrefix(m, t.Name() + "_") && WithoutPrefix(m, t.Name() + "_")[k] == m[k]
  {
    NamesDiffer(t);
    forall k | k in m && StartsWith(k, t.Other().Name() + "_")
      ensures !StartsWith(k, t.Name() + "_")
    {
      DistinctPrefixes(k, t.Other().Name(), t.Name());
    }
  }

  /** The JSON token file, held in memory. A missing file reads as the empty object. */
  class TokenFile {
    var entries: map<string, Stored>

    constructor ()
      ensures entries == map[]
    {
      entries := map[];
    }

    /** `save_tokens`: read the stored object, apply the given keys, write the union back. */
    method Save(update: map<string, Stored>)
      modifies this
      ensures entries.Keys == old(entries).Keys + update.Keys
      ensures forall k :: k in update ==> entries[k] == update[k]
      ensures forall k :: k in old(entries) && k !in update ==> entries[k] == old(entries)[k]
    {
      var existing := entries;
      entries := existing + update;
    }

    /** `remove_twin_tokens`: collect the keys that start with `twin + "_"`, pop each one and
        write the rest back. */
    method RemoveTwin(twin: string)
      modifies this
      ensures entries == WithoutPrefix(old(entries), twin + "_")
    {
      var prefix := twin + "_";
      var tokens := entries;
      var keysToRemove := set k | k in tokens.Keys && StartsWith(k, prefix);
      var pending := keysToRemove;
      while pending != {}
        invariant pending <= keysToRemove
        invariant tokens == old(entries) - (keysToRemove - pending)
        decreases |pending|
      {
        var k :| k in pending;
        tokens := tokens - {k};
        pending := pending - {k};
      }
      forall k ensures k in tokens <==> k in WithoutPrefix(old(entries), prefix) {
        assert k in keysToRemove <==> k in old(entries) && StartsWith(k, prefix);
      }
      entries := tokens;
    }
  }
}

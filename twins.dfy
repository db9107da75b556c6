/** The two fixed identity slots and the session/file keys namespaced by them. */
module Twins {

  /** 'twin_a' or 'twin_b'; there is never a third slot. */
  datatype Twin = TwinA | TwinB {

    /** The identifier the source uses in keys and OAuth states. */
    function Name(): (n: string)
      ensures |n| == 6 && n[..5] == "twin_"
    {
      match this
      case TwinA => "twin_a"
      case TwinB => "twin_b"
    }

    /** The other slot. */
    function Other(): (o: Twin)
      ensures o != this
    {
      match this
      case TwinA => TwinB
      case TwinB => TwinA
    }
  }

  /** The two slots have different names. */
  lemma NamesDiffer(t: Twin)
    ensures t.Name() != t.Other().Name()
  {
    assert t.Name()[5] != t.Other().Name()[5];
  }

  /** `{twin}_token`, `{twin}_refresh_token`, `{twin}_token_expiry`. */
  function TokenKey(t: Twin): string { t.Name() + "_token" }
  function RefreshKey(t: Twin): string { t.Name() + "_refresh_token" }
  function ExpiryKey(t: Twin): string { t.Name() + "_token_expiry" }
}

/** The masker object: masking and unmasking loops, and the stored vault of
    every session. */
module PiiMasker {
  import opened OrderedDict
  import opened Text
  import opened PiiVault
  import opened VaultSession

  function VaultOf(vaults: map<string, Vault>, session: string): Vault {
    if session in vaults then vaults[session] else Empty()
  }

  /** `mask_text`: the loop over the sorted spans. */
  method MaskText(text: string, spans: seq<Span>) returns (masked: string, vault: Vault)
    ensures masked == Mask(text, spans).masked && vault == Mask(text, spans).vault
  {
    masked, vault := text, Empty();
    if text == [] || spans == [] {
      return;
    }
    var counters: map<string, nat> := map[];
    var sorted := SortByStart(spans);
    for i := 0 to |sorted|
      invariant MaskSpans(text, Masking(masked, vault, counters), sorted[i..]) == Mask(text, spans)
    {
      var prefix := PrefixOf(sorted[i].entity);
      counters := counters[prefix := Count(counters, prefix) + 1];
      var token := Token(prefix, counters[prefix]);
      vault := vault.Put(token, From(Before(text, sorted[i].end), sorted[i].start));
      masked := Before(masked, sorted[i].start) + token + From(masked, sorted[i].end);
    }
  }

  class Masker {
    /** Stored vaults by session; a session without an entry has expired or is new. */
    var vaults: map<string, Vault>

    ghost predicate Valid() reads this {
      forall s | s in vaults :: IndexBound(vaults[s])
    }

    constructor ()
      ensures Valid() && vaults == map[]
    {
      vaults := map[];
    }

    method LoadVault(session: string) returns (vault: Vault)
      ensures vault == VaultOf(vaults, session)
    {
      vault := if session in vaults then vaults[session] else Empty();
    }

    method StoreVault(session: string, vault: Vault)
      requires Valid() && vault.Valid() && IndexBound(VaultOf(vaults, session).Update(vault))
      modifies this
      ensures Valid()
      ensures VaultOf(vaults, session) == VaultOf(old(vaults), session).Update(vault)
      ensures forall s | s != session :: VaultOf(vaults, s) == VaultOf(old(vaults), s)
    {
      if vault.order == [] {
        return;
      }
      var stored := vault;
      if session in vaults {
        stored := vaults[session].Update(vault);
      } else {
        UpdateEmpty(vault);
      }
      vaults := vaults[session := stored];
    }

    method MaskPrompt(text: string, spans: seq<Span>, session: string) returns (masked: string)
      requires Valid()
      modifies this
      ensures Valid()
      ensures masked == Mask(text, spans).masked
      ensures VaultOf(vaults, session) == Apply(VaultOf(old(vaults), session), MaskStep(text, spans))
      ensures forall s | s != session :: VaultOf(vaults, s) == VaultOf(old(vaults), s)
    {
      var vault;
      masked, vault := MaskText(text, spans);
      MaskIndexBound(text, spans);
      MergeIndexBound(VaultOf(vaults, session), vault);
      StoreVault(session, vault);
    }

    method Unmask(text: string, session: string) returns (result: string)
      requires Valid()
      ensures Tokens(VaultOf(vaults, session).order, VaultOf(vaults, session).at)
      ensures result == UnmaskWith(VaultOf(vaults, session).order, VaultOf(vaults, session).at, text)
    {
      var vault := LoadVault(session);
      BoundIsBracketed(vault);
      result := text;
      for i := 0 to |vault.order|
        invariant Tokens(vault.order[i..], vault.at)
        invariant UnmaskWith(vault.order[i..], vault.at, result) == UnmaskWith(vault.order, vault.at, text)
      {
        result := Replace(result, vault.order[i], vault.at[vault.order[i]]);
      }
    }

    /** The dispatch task's choice of token for the customer's contact. */
    method TargetToken(session: string, contact: Contact) returns (token: string)
      requires Valid()
      modifies this
      ensures Valid()
      ensures token == Target(VaultOf(old(vaults), session), contact).0
      ensures VaultOf(vaults, session) == Apply(VaultOf(old(vaults), session), TargetStep(contact))
      ensures forall s | s != session :: VaultOf(vaults, s) == VaultOf(old(vaults), s)
    {
      hide Token, HasIndexUpTo, Dict.Update;
      var vault := LoadVault(session);
      var i := ScanFor(vault, contact.value);
      if i < |vault.order| {
        token := vault.order[i];
      } else {
        token := Token(contact.Prefix(), |vault.order| + 1);
        InventedEntry(vault, contact);
        StoreVault(session, Dict([token], map[token := contact.value]));
      }
    }
  }

  /** The loop over the vault's items that stops at the first holding `value`. */
  method ScanFor(vault: Vault, value: string) returns (i: nat)
    requires vault.Valid()
    ensures i == FirstHolding(vault.order, vault.at, value)
  {
    i := 0;
    while i < |vault.order| && vault.at[vault.order[i]] != value
      invariant i <= |vault.order|
      invariant forall j | 0 <= j < i :: vault.at[vault.order[j]] != value
    {
      i := i + 1;
    }
  }

  lemma InventedEntry(v: Vault, c: Contact)
    requires IndexBound(v) && FirstHolding(v.order, v.at, c.value) == |v.order|
    ensures var token := Token(c.Prefix(), |v.order| + 1);
            var one := Dict([token], map[token := c.value]);
            one.Valid() && v.Update(one) == Target(v, c).1 && IndexBound(v.Update(one))
  {
    OneEntryUpdate(v, Token(c.Prefix(), |v.order| + 1), c.value);
    TargetIndexBound(v, c);
  }

  lemma UpdateEmpty(v: Vault)
    requires v.Valid()
    ensures Empty().Update(v) == v
  {
    UpdateFromPrefix(Empty(), v, 0);
  }

  /** Putting the rest of a dictionary after its first entries rebuilds it. */
  lemma {:induction false} UpdateFromPrefix(d: Vault, v: Vault, i: nat)
    requires v.Valid() && i <= |v.order|
    requires d.order == v.order[..i] && d.Valid() && forall k | k in d.at :: k in v.at && d.at[k] == v.at[k]
    ensures d.PutAll(v.order[i..], v.at) == v
    decreases |v.order| - i
  {
    if i == |v.order| {
      assert d.order == v.order;
      assert d.at == v.at;
    } else {
      hide Dict.PutAll;
      NextEntry(d, v, i);
      PutAllNext(d, v, i);
      UpdateFromPrefix(d.Put(v.order[i], v.at[v.order[i]]), v, i + 1);
    }
  }

  lemma NextEntry(d: Vault, v: Vault, i: nat)
    requires v.Valid() && d.Valid() && i < |v.order| && d.order == v.order[..i]
    ensures v.order[i] in v.at
    ensures d.Put(v.order[i], v.at[v.order[i]]).Valid()
    ensures d.Put(v.order[i], v.at[v.order[i]]).order == v.order[..i + 1]
  {
    var k := v.order[i];
    assert k in v.order;
    assert k !in d.order;
    d.PutValid(k, v.at[k]);
  }

  lemma PutAllNext(d: Vault, v: Vault, i: nat)
    requires v.Valid() && i < |v.order| && v.order[i] in v.at
    ensures d.PutAll(v.order[i..], v.at) == d.Put(v.order[i], v.at[v.order[i]]).PutAll(v.order[i + 1..], v.at)
  {
    assert v.order[i..][1..] == v.order[i + 1..];
  }
}

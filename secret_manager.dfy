/** The secret manager (internal/secret/manager.go): vaults registered by
    name, and the union of the secrets they all give. A vault is modelled by
    the answer its `GetSecrets` gives. The vaults are visited in Go's map
    order, so which error is reported when several vaults fail, and which
    value a key two vaults share gets, are not fixed; the contract states
    what holds for every order. */
module SecretManager {
  import opened Wrappers
  import opened Collections

  datatype Vault = Vault(answer: Result<map<string, string>, string>)

  function VaultError(name: string, e: string): string
  {
    "failed to get secrets from vault " + name + ": " + e
  }

  /** Vault `name` is registered, answers, and has `key`. */
  ghost predicate Provides(vaults: map<string, Vault>, name: string, key: string)
  {
    name in vaults && vaults[name].answer.Ok? && key in vaults[name].answer.value
  }

  class Manager {
    var vaults: map<string, Vault>

    /** NewManager: no vaults. */
    constructor ()
      ensures vaults == map[]
    {
      vaults := map[];
    }

    /** A vault under an existing name replaces it; the others stay. */
    method RegisterVault(name: string, vault: Vault)
      modifies this
      ensures vaults == old(vaults)[name := vault]
    {
      vaults := vaults[name := vault];
    }

    /** Fails when some vault fails, naming it; otherwise every key some
        vault gives, each with the value of a vault that gives it. */
    method GetSecrets() returns (r: Result<map<string, string>, string>)
      ensures r.Ok? <==> forall n :: n in vaults ==> vaults[n].answer.Ok?
      ensures r.Err? ==> exists n :: n in vaults && vaults[n].answer.Err? && r.error == VaultError(n, vaults[n].answer.error)
      ensures r.Ok? ==> forall k :: k in r.value <==> exists n :: Provides(vaults, n, k)
      ensures r.Ok? ==> forall k :: k in r.value ==> exists n :: Provides(vaults, n, k) && r.value[k] == vaults[n].answer.value[k]
    {
      var order := SomeOrder(vaults.Keys);
      var secrets: map<string, string> := map[];
      for i := 0 to |order|
        invariant forall j :: 0 <= j < i ==> vaults[order[j]].answer.Ok?
        invariant Gathered(vaults, order, i, secrets)
      {
        var name := order[i];
        var answer := vaults[name].answer;
        if answer.Err? {
          return Err(VaultError(name, answer.error));
        }
        ghost var before := secrets;
        secrets := Overlay(secrets, answer.value);
        GatherStep(vaults, order, i, before);
      }
      GatheredAll(vaults, order, secrets);
      return Ok(secrets);
    }
  }

  /** The keys gathered from the first `i` vaults of `order`, and where
      each value came from. */
  ghost predicate Gathered(vaults: map<string, Vault>, order: seq<string>, i: nat, secrets: map<string, string>)
    requires i <= |order|
  {
    && (forall k :: k in secrets <==> exists j :: 0 <= j < i && Provides(vaults, order[j], k))
    && (forall k :: k in secrets ==> exists j :: 0 <= j < i && Provides(vaults, order[j], k) && secrets[k] == vaults[order[j]].answer.value[k])
  }

  /** Overlaying the answer of vault `i` extends what was gathered to the
      first `i + 1` vaults. */
  lemma GatherStep(vaults: map<string, Vault>, order: seq<string>, i: nat, before: map<string, string>)
    requires i < |order| && order[i] in vaults && vaults[order[i]].answer.Ok?
    requires Gathered(vaults, order, i, before)
    ensures Gathered(vaults, order, i + 1, before + vaults[order[i]].answer.value)
  {
    var answer := vaults[order[i]].answer.value;
    var after := before + answer;
    forall k | k in after
      ensures exists j :: 0 <= j < i + 1 && Provides(vaults, order[j], k) && after[k] == vaults[order[j]].answer.value[k]
    {
      if k in answer {
        assert Provides(vaults, order[i], k);
      } else {
        var j :| 0 <= j < i && Provides(vaults, order[j], k) && before[k] == vaults[order[j]].answer.value[k];
      }
    }
    forall k | exists j :: 0 <= j < i + 1 && Provides(vaults, order[j], k)
      ensures k in after
    {
      var j :| 0 <= j < i + 1 && Provides(vaults, order[j], k);
      if j < i {
        assert k in before;
      }
    }
  }

  /** Gathered from every vault of a listing, the keys are those some vault
      gives, each with the value of a vault that gives it. */
  lemma GatheredAll(vaults: map<string, Vault>, order: seq<string>, secrets: map<string, string>)
    requires IsOrdering(order, vaults.Keys)
    requires Gathered(vaults, order, |order|, secrets)
    ensures forall k :: k in secrets <==> exists n :: Provides(vaults, n, k)
    ensures forall k :: k in secrets ==> exists n :: Provides(vaults, n, k) && secrets[k] == vaults[n].answer.value[k]
  {
    forall k | exists n :: Provides(vaults, n, k)
      ensures k in secrets
    {
      var n :| Provides(vaults, n, k);
      var j :| 0 <= j < |order| && order[j] == n;
    }
  }

  /** A key only one vault gives has that vault's value. */
  lemma SingleProviderValue(vaults: map<string, Vault>, secrets: map<string, string>, name: string, key: string)
    requires forall k :: k in secrets ==> exists n :: Provides(vaults, n, k) && secrets[k] == vaults[n].answer.value[k]
    requires forall k :: k in secrets <==> exists n :: Provides(vaults, n, k)
    requires Provides(vaults, name, key)
    requires forall n :: n != name ==> !Provides(vaults, n, key)
    ensures key in secrets && secrets[key] == vaults[name].answer.value[key]
  {
    var n :| Provides(vaults, n, key) && secrets[key] == vaults[n].answer.value[key];
  }
}

/** FetchSecrets of kontraktor/internal/vault/azure.go: each environment name
    of a Key Vault configuration gets the value of its secret, asked of an
    `AzureClient`; the first failure is the result. The client is the
    parameter `client`, its `GetSecret(vaultName, secretName)`. The
    configured names are visited in Go's map order, so which failure is
    reported when several secrets fail is not fixed. */
module AzureVault {
  import opened Wrappers
  import opened Collections
  import opened Manifest

  type AzureClient = (string, string) -> Result<string, string>

  /** The secrets of `config` when every lookup succeeds. */
  function Fetched(client: AzureClient, config: AzureKeyVaultConfig): (r: Option<map<string, string>>)
    ensures r.Some? <==> forall k :: k in config.secrets ==> client(config.keyVaultName, config.secrets[k]).Ok?
    ensures r.Some? ==> r.value.Keys == config.secrets.Keys
    ensures r.Some? ==> forall k :: k in r.value ==> r.value[k] == client(config.keyVaultName, config.secrets[k]).value
  {
    if forall k :: k in config.secrets ==> client(config.keyVaultName, config.secrets[k]).Ok? then
      Some(map k | k in config.secrets :: client(config.keyVaultName, config.secrets[k]).value)
    else None
  }

  method FetchSecrets(client: AzureClient, config: AzureKeyVaultConfig) returns (r: Result<map<string, string>, string>)
    ensures r.Ok? <==> Fetched(client, config).Some?
    ensures r.Ok? ==> r.value == Fetched(client, config).value
    ensures r.Err? ==> exists k :: k in config.secrets && client(config.keyVaultName, config.secrets[k]) == Err(r.error)
  {
    var order := SomeOrder(config.secrets.Keys);
    var result: map<string, string> := map[];
    for i := 0 to |order|
      invariant forall j :: 0 <= j < i ==> order[j] in result
      invariant forall k :: k in result ==> k in config.secrets && client(config.keyVaultName, config.secrets[k]) == Ok(result[k])
    {
      var envVar := order[i];
      var value := client(config.keyVaultName, config.secrets[envVar]);
      if value.Err? {
        return Err(value.error);
      }
      result := result[envVar := value.value];
    }
    forall k | k in config.secrets
      ensures k in result
    {
      var j :| 0 <= j < |order| && order[j] == k;
    }
    assert Fetched(client, config).Some?;
    assert result == Fetched(client, config).value;
    return Ok(result);
  }

  /** A configuration without secrets gives the empty map. */
  lemma NoSecretsNoLookups(client: AzureClient, vaultName: string)
    ensures Fetched(client, AzureKeyVaultConfig(vaultName, map[])) == Some(map[])
  {
  }
}

/**
 * Tenant-aware cache-name resolution (TenantSpringCacheManager.getCache): every
 * Spring cache name is scoped to the current tenant unless tenant filtering is
 * switched off or the name is global.
 */
module TenantCacheNames {
  import opened Common
  import opened Text

  /** StringUtils.startsWith(name, prefix): false for a null prefix. */
  predicate StartsWith(name: string, prefix: Option<string>) {
    prefix.Some? && prefix.value <= name
  }

  /**
   * The name of the cache actually used for `name`, given whether tenant-line
   * filtering is being ignored and the current tenant id (a blank id is only
   * logged and does not stop the resolution).
   */
  function ResolveCacheName(name: string, ignoreTenantLine: bool, tenantId: Option<string>): (r: string)
    // The name is either kept or prefixed with the tenant id and a colon.
    ensures r == name || r == JavaText(tenantId) + ":" + name
    // Unless tenant filtering is off or the name is global, the result lies in the tenant's namespace.
    ensures tenantId.Some? ==> ignoreTenantLine || Contains(name, GLOBAL_REDIS_KEY) || tenantId.value <= r
    // The name is prefixed exactly when none of the three exemptions applies.
    ensures r != name <==> !ignoreTenantLine && !Contains(name, GLOBAL_REDIS_KEY) && !StartsWith(name, tenantId)
  {
    if ignoreTenantLine then name
    else if Contains(name, GLOBAL_REDIS_KEY) then name
    else if StartsWith(name, tenantId) then name
    else JavaText(tenantId) + ":" + name
  }

  /** A name that resolution leaves alone under a tenant is left alone again. */
  lemma KeptNameIsStable(name: string, ignoreTenantLine: bool, tenantId: Option<string>)
    requires ResolveCacheName(name, ignoreTenantLine, tenantId) == name
    ensures ResolveCacheName(ResolveCacheName(name, ignoreTenantLine, tenantId), ignoreTenantLine, tenantId) == name
  {
  }

  /** Resolution is idempotent for a present tenant id: resolving a resolved name changes nothing. */
  lemma ResolveIdempotent(name: string, ignoreTenantLine: bool, tenantId: string)
    ensures var once := ResolveCacheName(name, ignoreTenantLine, Some(tenantId));
            ResolveCacheName(once, ignoreTenantLine, Some(tenantId)) == once
  {
    var once := ResolveCacheName(name, ignoreTenantLine, Some(tenantId));
    if once != name {
      assert once == tenantId + ":" + name;
      assert once[..|tenantId|] == tenantId;
      assert StartsWith(once, Some(tenantId));
    }
  }

  /** The result is a function of the name alone when tenant filtering is ignored or the name is global. */
  lemma ExemptNamesIgnoreTenant(name: string, ignoreTenantLine: bool, t1: Option<string>, t2: Option<string>)
    requires ignoreTenantLine || Contains(name, GLOBAL_REDIS_KEY)
    ensures ResolveCacheName(name, ignoreTenantLine, t1) == ResolveCacheName(name, ignoreTenantLine, t2) == name
  {
  }

  /**
   * Without a tenant id the name is prefixed with the text "null" (Java string
   * concatenation of null), and a second resolution prefixes it again: idempotence
   * holds only for a present tenant id.
   */
  lemma AbsentTenantPrefixesAgain(name: string)
    requires GLOBAL_REDIS_KEY[0] !in name
    ensures ResolveCacheName(name, false, None) == "null:" + name
    ensures ResolveCacheName("null:" + name, false, None) == "null:null:" + name
    ensures ResolveCacheName(ResolveCacheName(name, false, None), false, None) != ResolveCacheName(name, false, None)
  {
    NotContainsWithoutFirstChar(name, GLOBAL_REDIS_KEY);
    assert GLOBAL_REDIS_KEY[0] !in "null:";
    assert GLOBAL_REDIS_KEY[0] !in "null:" + name;
    NotContainsWithoutFirstChar("null:" + name, GLOBAL_REDIS_KEY);
    assert "null:" + ("null:" + name) == "null:null:" + name;
  }
}

/** The limits admission control works with: one for each tenant, one for all users. */
module AdmissionLimits {
  datatype Limits = Limits(tenant: map<string, int>, tenantDefault: int, user: int)

  function TenantLimit(l: Limits, tenant: string): int {
    if tenant in l.tenant then l.tenant[tenant] else l.tenantDefault
  }
}

/** Access control as the core sees it. The internals of
    ObjectProtection.requireAccess (owner rules, system privileges, mandatory
    access control) are not part of this model: an object protection is an ACL
    from roles to the strongest access type each role is granted. */
module Access {

  datatype AccessType = VIEW | USE | CHANGE | CONTROL {
    /** Rank of the access type; a stronger grant implies every weaker one. */
    function Level(): nat {
      match this
      case VIEW => 0
      case USE => 1
      case CHANGE => 2
      case CONTROL => 3
    }
  }

  type RoleName = string

  /** The caller's identity, reduced to its role. */
  datatype AccessContext = AccessContext(role: RoleName)

  datatype ObjectProtection = ObjectProtection(acl: map<RoleName, AccessType>)

  /** requireAccess succeeds exactly when this holds; otherwise it raises
      AccessDeniedException. */
  predicate Permits(prot: ObjectProtection, ctx: AccessContext, needed: AccessType) {
    ctx.role in prot.acl && prot.acl[ctx.role].Level() >= needed.Level()
  }

  datatype AccessError = AccessDenied
}

/**
 * The invoice capability table of keuangan.js (`INVOICE_PERMISSIONS`) and the
 * gate `hasInvoicePermission` that every invoice operation consults first.
 * The logged-in user, read from local storage in the original, is an
 * `Option<User>` input here.
 */
module KeuanganPermissions {
  import opened Wrappers

  /** The `currentUser` record kept in local storage. */
  datatype User = User(username: string, role: string)

  /** role -> operation -> allowed, as in `INVOICE_PERMISSIONS`. */
  const InvoicePermissions: map<string, map<string, bool>> := map[
    "admin" := map["create" := true, "edit" := true, "delete" := true, "view" := true, "approve" := true],
    "staff" := map["create" := true, "edit" := true, "delete" := false, "view" := true, "approve" := false],
    "viewer" := map["create" := false, "edit" := false, "delete" := false, "view" := true, "approve" := false]
  ]

  /**
   * `hasInvoicePermission(operation)`: no user, an unknown role and an unknown
   * operation all deny; otherwise the table decides.
   */
  function HasInvoicePermission(user: Option<User>, operation: string): (allowed: bool)
    ensures allowed <==>
      && user.Some?
      && (|| (user.value.role == "admin" && operation in ["create", "edit", "delete", "view", "approve"])
          || (user.value.role == "staff" && operation in ["create", "edit", "view"])
          || (user.value.role == "viewer" && operation == "view"))
  {
    match user
    case None => false
    case Some(u) =>
      var permissions := if u.role in InvoicePermissions then InvoicePermissions[u.role] else map[];
      operation in permissions && permissions[operation]
  }

  /** Whoever may create or delete invoices may also view and edit them. */
  lemma CreateOrDeleteImpliesViewAndEdit(user: Option<User>)
    requires HasInvoicePermission(user, "create") || HasInvoicePermission(user, "delete")
    ensures HasInvoicePermission(user, "view") && HasInvoicePermission(user, "edit")
    ensures HasInvoicePermission(user, "create")
  {
  }

  /** Deleting and approving invoices is reserved for the admin role. */
  lemma OnlyAdminDeletesOrApproves(user: Option<User>)
    requires HasInvoicePermission(user, "delete") || HasInvoicePermission(user, "approve")
    ensures user.Some? && user.value.role == "admin"
  {
  }
}

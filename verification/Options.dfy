/** The result types shared by all modules. */
module Options {
  datatype Option<+T> = None | Some(value: T)

  datatype Result<+T> = Ok(value: T) | Err(error: Error)

  datatype Error = DimensionMismatch | AlreadyExists | InvalidArgument | NotInitialized

  /** `if tenant_id:` — an empty tenant counts as none. */
  predicate Given(tenant: Option<string>) { tenant.Some? && tenant.value != "" }
}

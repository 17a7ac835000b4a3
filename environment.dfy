/** The run-mode check of internal/environment/environment.go: exactly two
    names are accepted, compared as written. */
module Environment {
  import opened Wrappers

  const Development := "development"
  const Production := "production"

  /** ValidateEnvironment: no error for the two known modes, otherwise
      "Invalid environment". */
  function ValidateEnvironment(env: string): (err: Option<string>)
    ensures err.None? <==> env == Development || env == Production
    ensures err.Some? ==> err.value == "Invalid environment"
  {
    if env != Development && env != Production then Some("Invalid environment") else None
  }

  /** The comparison is exact: a capitalised mode name is rejected. */
  lemma CaseMatters()
    ensures ValidateEnvironment("Production") == Some("Invalid environment")
    ensures ValidateEnvironment("Development") == Some("Invalid environment")
  {
    assert "Production"[0] != Production[0];
    assert "Development"[0] != Development[0];
  }
}

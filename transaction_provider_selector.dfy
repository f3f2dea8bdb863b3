/** `TransactionProviderSelector`: picks the Exposed transaction provider from
    the `TRANSACTION_PROVIDER` environment variable (passed in; None when
    unset), compared after lower-casing. */
module TransactionProviderSelector {
  import opened Wrappers
  import opened KotlinText
  import opened TransactionProviders

  datatype ProviderType = JDBC | DATABASE

  /** `getProviderType`: "database" after lower-casing gives DATABASE;
      anything else, and an unset variable, gives JDBC. */
  function GetProviderType(env: Option<string>): (t: ProviderType)
    ensures env.None? ==> t == JDBC
  {
    match env
    case None => JDBC
    case Some(value) => if Lowercase(value) == "database" then DATABASE else JDBC
  }

  /** DATABASE is chosen exactly for "database" in any letter case. */
  lemma DatabaseIffAnyCase(env: Option<string>)
    ensures GetProviderType(env) == DATABASE <==> env.Some? && EqualsIgnoreCase(env.value, "database")
  {
    if env.Some? {
      LowercaseEqualIff(env.value, "database");
      assert Lowercase("database") == "database";
    }
  }

  lemma ProviderTypeExamples()
    ensures GetProviderType(None) == JDBC
    ensures GetProviderType(Some("DataBase")) == DATABASE
    ensures GetProviderType(Some("jdbc")) == JDBC
    ensures GetProviderType(Some("")) == JDBC
  {
    assert Lowercase("DataBase") == "database";
    assert Lowercase("jdbc") == "jdbc";
  }

  /** `createProvider`: the provider that matches `getProviderType`. */
  function CreateProvider(env: Option<string>): (k: ProviderKind)
    ensures k == DatabaseTransactionProvider <==> GetProviderType(env) == DATABASE
  {
    match GetProviderType(env)
    case JDBC => JdbcTransactionProvider
    case DATABASE => DatabaseTransactionProvider
  }
}

/** `TransactionProviderConfig`: reads the `TRANSACTION_PROVIDER` environment
    variable (passed in; None when unset) as an enum name after upper-casing,
    defaulting to JDBC. */
module TransactionProviderConfig {
  import opened Wrappers
  import opened KotlinText
  import opened TransactionProviders

  datatype ProviderType = JDBC | DATABASE

  /** The enum constant's name. */
  function Name(t: ProviderType): string
  {
    match t
    case JDBC => "JDBC"
    case DATABASE => "DATABASE"
  }

  /** `ProviderType.valueOf`: the constant with exactly this name, or None
      where Kotlin throws `IllegalArgumentException`. */
  function ValueOf(name: string): (r: Option<ProviderType>)
    ensures forall t :: r == Some(t) <==> name == Name(t)
  {
    if name == "JDBC" then Some(JDBC) else if name == "DATABASE" then Some(DATABASE) else None
  }

  /** `currentProvider`: the constant the upper-cased value names; an
      invalid value and an unset variable both give JDBC. */
  function CurrentProvider(env: Option<string>): (t: ProviderType)
    ensures env.None? ==> t == JDBC
    ensures env.Some? ==> (t == DATABASE <==> Uppercase(env.value) == Name(DATABASE))
  {
    match env
    case None => JDBC
    case Some(value) =>
      match ValueOf(Uppercase(value))
      case Some(t) => t
      case None => JDBC
  }

  /** A value that equals a constant's name ignoring case selects it. */
  lemma NameInAnyCase(value: string, t: ProviderType)
    requires EqualsIgnoreCase(value, Name(t))
    ensures CurrentProvider(Some(value)) == t
  {
    UppercaseEqualIff(value, Name(t));
    assert Uppercase(Name(t)) == Name(t);
  }

  /** A value that names no constant, the empty string included, gives JDBC
      instead of a failure. */
  lemma InvalidValueGivesJdbc(value: string)
    requires forall t :: !EqualsIgnoreCase(value, Name(t))
    ensures CurrentProvider(Some(value)) == JDBC
  {
    if ValueOf(Uppercase(value)).Some? {
      var t := ValueOf(Uppercase(value)).value;
      UppercaseEqualIff(value, Name(t));
      assert false;
    }
  }

  lemma CurrentProviderExamples()
    ensures CurrentProvider(None) == JDBC
    ensures CurrentProvider(Some("jdbc")) == JDBC
    ensures CurrentProvider(Some("Database")) == DATABASE
    ensures CurrentProvider(Some("")) == JDBC
    ensures CurrentProvider(Some("postgres")) == JDBC
  {
    assert Uppercase("jdbc") == "JDBC";
    assert Uppercase("Database") == "DATABASE";
    assert Uppercase("") == "";
    assert Uppercase("postgres") == "POSTGRES";
  }

  /** `createProvider`: a JDBC provider whichever constant is configured,
      since the database-backed provider is not available. */
  function CreateProvider(t: ProviderType): (k: ProviderKind)
    ensures k == JdbcTransactionProvider
  {
    match t
    case JDBC => JdbcTransactionProvider
    case DATABASE => JdbcTransactionProvider
  }
}

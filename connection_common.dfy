/** Where the benchmark's database lives: fixed defaults that the `db.host`
    and `db.port` system properties override, read afresh on every access
    (the system properties are passed in as a map). */
module ConnectionCommon {
  import opened Wrappers
  import opened KotlinText

  const HOST: string := "tfb-database"
  const PORT: int := 5432

  const DB_HOST: string := "db.host"
  const DB_PORT: string := "db.port"

  /** `host`: the `db.host` property when it is set, else `HOST`. */
  function Host(props: map<string, string>): (h: string)
    ensures DB_HOST in props ==> h == props[DB_HOST]
    ensures DB_HOST !in props ==> h == HOST
  {
    if DB_HOST in props then props[DB_HOST] else HOST
  }

  /** `port`: the `db.port` property read as an `Int` when it is set and
      parses, else `PORT`; never a failure. */
  function Port(props: map<string, string>): (p: int)
    ensures IsInt(p)
    ensures DB_PORT in props && ToIntOrNull(props[DB_PORT]).Some? ==> p == ToIntOrNull(props[DB_PORT]).value
  {
    if DB_PORT in props && ToIntOrNull(props[DB_PORT]).Some? then ToIntOrNull(props[DB_PORT]).value else PORT
  }

  /** Setting `db.host` to anything, the empty string included, makes it the host. */
  lemma HostOverride(props: map<string, string>, host: string)
    ensures Host(props[DB_HOST := host]) == host
  {
  }

  /** Setting `db.port` to the numeral of any `Int` makes that `Int` the port. */
  lemma PortOverride(props: map<string, string>, port: int)
    requires IsInt(port)
    ensures Port(props[DB_PORT := IntToString(port)]) == port
  {
    ToIntOrNullOfIntToString(port);
  }

  /** An absent or unparseable `db.port` silently gives 5432. */
  lemma PortFallback(props: map<string, string>)
    requires DB_PORT !in props || ToIntOrNull(props[DB_PORT]).None?
    ensures Port(props) == PORT
  {
  }

  /** With no properties set the defaults apply. */
  lemma DefaultConnection()
    ensures Host(map[]) == "tfb-database" && Port(map[]) == 5432
  {
  }

  /** A non-numeral or a numeral beyond `Int` falls back to the default port. */
  lemma UnparseablePortExamples()
    ensures Port(map[DB_PORT := "abc"]) == 5432
    ensures Port(map[DB_PORT := "99999999999"]) == 5432
  {
    assert "abc"[0] != '-' && "abc"[0] != '+' && !IsDigit("abc"[|"abc"| - 1]);
    LongNumeralIsNotInt("99999999999");
  }

  lemma NumeralPortExample()
    ensures Port(map[DB_PORT := "15432"]) == 15432
  {
    assert "15432"[0] != '-' && "15432"[0] != '+';
    assert AllDigits("15432");
    assert DigitsValue("15432") == 15432 by {
      assert "15432"[..4] == "1543" && "1543"[..3] == "154" && "154"[..2] == "15" && "15"[..1] == "1";
    }
  }
}

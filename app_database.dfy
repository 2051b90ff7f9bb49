/**
 * The database kinds of the queue application (`app/database/database.go`),
 * declared again there with the same names and the same parser as the
 * server's.
 */
module AppDatabase {
  import opened Wrappers
  import opened Text
  import ServerDatabase

  /** `DatabaseType`: a struct holding the kind's name. */
  datatype DatabaseType = DatabaseType(value: string)
  {
    /** `DatabaseType.String`: the kind's name; for the four supported kinds a non-empty lower-case word. */
    function String(): (s: string)
      ensures this in Supported ==> s != [] && IsLowerAscii(s)
    {
      value
    }
  }

  const SQLite: DatabaseType := DatabaseType("sqlite")
  const MSSQL: DatabaseType := DatabaseType("mssql")
  const PostgreSQL: DatabaseType := DatabaseType("pssql")
  const MySQL: DatabaseType := DatabaseType("mysql")

  /** `supported`: the four kinds, in declaration order. */
  const Supported: seq<DatabaseType> := [SQLite, MSSQL, PostgreSQL, MySQL]

  const UnknownType: string := "unknown or unsupported database type"

  /** The switch of `ParseDatabaseType`: the kind whose name is `key`, if any. */
  function MatchName(key: string): (r: Result<DatabaseType, string>)
    ensures r.Ok? ==> r.value in Supported && r.value.String() == key
    ensures r.Err? <==> forall i :: 0 <= i < |Supported| ==> Supported[i].String() != key
    ensures r.Err? ==> r.error == UnknownType
  {
    if key == SQLite.String() then Ok(SQLite)
    else if key == MSSQL.String() then Ok(MSSQL)
    else if key == PostgreSQL.String() then Ok(PostgreSQL)
    else if key == MySQL.String() then Ok(MySQL)
    else Err(UnknownType)
  }

  /** `ParseDatabaseType`: trim and lower-case the name, then match it. */
  function ParseDatabaseType(value: string): (r: Result<DatabaseType, string>)
    ensures r.Ok? ==> r.value in Supported && r.value.String() == ToLower(TrimSpace(value))
    ensures r.Err? <==> forall i :: 0 <= i < |Supported| ==> Supported[i].String() != ToLower(TrimSpace(value))
    ensures r.Err? ==> r.error == UnknownType
  {
    MatchName(ToLower(TrimSpace(value)))
  }

  /** The switch recognises each supported kind by its own name. */
  lemma MatchNameOfString(t: DatabaseType)
    requires t in Supported
    ensures MatchName(t.String()) == Ok(t)
  {
    if t == SQLite {
      assert MatchName("sqlite") == Ok(SQLite);
    } else if t == MSSQL {
      assert MatchName("mssql") == Ok(MSSQL);
    } else if t == PostgreSQL {
      assert MatchName("pssql") == Ok(PostgreSQL);
    } else {
      assert MatchName("mysql") == Ok(MySQL);
    }
  }

  /** Every supported kind parses back from its own name. */
  lemma ParseDatabaseTypeOfString(t: DatabaseType)
    requires t in Supported
    ensures ParseDatabaseType(t.String()) == Ok(t)
  {
    NormaliseOfLower(t.String());
    MatchNameOfString(t);
  }

  /** Surrounding white space and upper case make no difference. */
  lemma ParseDatabaseTypeNormalises(pre: string, name: string, post: string)
    requires AllSpace(pre) && AllSpace(post)
    requires name != [] && !IsSpace(name[0]) && !IsSpace(name[|name| - 1])
    ensures ParseDatabaseType(pre + name + post) == ParseDatabaseType(name)
  {
    TrimSpacePadded(pre, name, post);
    TrimSpaceOfTrimmed(name);
  }

  /** The two copies accept the same names, give kinds of the same name, and fail with the same message. */
  lemma AgreesWithServer(value: string)
    ensures ParseDatabaseType(value).Ok? <==> ServerDatabase.ParseDatabaseType(value).Ok?
    ensures ParseDatabaseType(value).Ok? ==>
      ParseDatabaseType(value).value.String() == ServerDatabase.ParseDatabaseType(value).value.String()
    ensures ParseDatabaseType(value).Err? ==>
      ParseDatabaseType(value).error == ServerDatabase.ParseDatabaseType(value).error
  {
  }
}

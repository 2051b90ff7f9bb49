/**
 * The database kinds the server can open (`server/app/database/database.go`):
 * a name in configuration is normalised and matched against four constants.
 */
module ServerDatabase {
  import opened Wrappers
  import opened Text

  /** `DatabaseType`: a struct holding the kind's name. */
  datatype DatabaseType = DatabaseType(value: string)
  {
    /** `DatabaseType.String`: the kind's name; for the four supported kinds a non-empty lower-case word. */
    function String(): (s: string)
      ensures this in Supported ==> s != [] && IsLowerAscii(s)
    {
      value
    }
  }

  const SQLite: DatabaseType := DatabaseType("sqlite")
  const MSSQL: DatabaseType := DatabaseType("mssql")
  const PostgreSQL: DatabaseType := DatabaseType("pssql")
  const MySQL: DatabaseType := DatabaseType("mysql")

  /** `supported`: the four kinds, in declaration order. */
  const Supported: seq<DatabaseType> := [SQLite, MSSQL, PostgreSQL, MySQL]

  const UnknownType: string := "unknown or unsupported database type"

  /** The switch of `ParseDatabaseType`: the kind whose name is `key`, if any. */
  function MatchName(key: string): (r: Result<DatabaseType, string>)
    ensures r.Ok? ==> r.value in Supported && r.value.String() == key
    ensures r.Err? <==> forall i :: 0 <= i < |Supported| ==> Supported[i].String() != key
    ensures r.Err? ==> r.error == UnknownType
  {
    if key == SQLite.String() then Ok(SQLite)
    else if key == MSSQL.String() then Ok(MSSQL)
    else if key == PostgreSQL.String() then Ok(PostgreSQL)
    else if key == MySQL.String() then Ok(MySQL)
    else Err(UnknownType)
  }

  /** `ParseDatabaseType`: trim and lower-case the name, then match it. */
  function ParseDatabaseType(value: string): (r: Result<DatabaseType, string>)
    ensures r.Ok? ==> r.value in Supported && r.value.String() == ToLower(TrimSpace(value))
    ensures r.Err? <==> forall i :: 0 <= i < |Supported| ==> Supported[i].String() != ToLower(TrimSpace(value))
    ensures r.Err? ==> r.error == UnknownType
  {
    MatchName(ToLower(TrimSpace(value)))
  }

  /** The switch recognises each supported kind by its own name. */
  lemma MatchNameOfString(t: DatabaseType)
    requires t in Supported
    ensures MatchName(t.String()) == Ok(t)
  {
    if t == SQLite {
      assert MatchName("sqlite") == Ok(SQLite);
    } else if t == MSSQL {
      assert MatchName("mssql") == Ok(MSSQL);
    } else if t == PostgreSQL {
      assert MatchName("pssql") == Ok(PostgreSQL);
    } else {
      assert MatchName("mysql") == Ok(MySQL);
    }
  }

  /** Every supported kind parses back from its own name. */
  lemma ParseDatabaseTypeOfString(t: DatabaseType)
    requires t in Supported
    ensures ParseDatabaseType(t.String()) == Ok(t)
  {
    NormaliseOfLower(t.String());
    MatchNameOfString(t);
  }

  /** Surrounding white space and upper case make no difference. */
  lemma ParseDatabaseTypeNormalises(pre: string, name: string, post: string)
    requires AllSpace(pre) && AllSpace(post)
    requires name != [] && !IsSpace(name[0]) && !IsSpace(name[|name| - 1])
    ensures ParseDatabaseType(pre + name + post) == ParseDatabaseType(name)
  {
    TrimSpacePadded(pre, name, post);
    TrimSpaceOfTrimmed(name);
  }

  /**
   * Any spelling of a supported name in upper or mixed case, with white
   * space around it, parses as that kind (" SQLite " is SQLite).
   */
  lemma ParseDatabaseTypeOfSpelling(pre: string, name: string, post: string, t: DatabaseType)
    requires AllSpace(pre) && AllSpace(post)
    requires t in Supported && ToLower(name) == t.String()
    ensures ParseDatabaseType(pre + name + post) == Ok(t)
  {
    LowersToWordEnds(name, t.String());
    ParseDatabaseTypeNormalises(pre, name, post);
    TrimSpaceOfTrimmed(name);
    MatchNameOfString(t);
  }

  /** A lower-case word that is none of the four names is refused. */
  lemma ParseDatabaseTypeRejectsOtherWord(w: string)
    requires IsLowerAscii(w)
    requires forall i :: 0 <= i < |Supported| ==> Supported[i].String() != w
    ensures ParseDatabaseType(w) == Err(UnknownType)
  {
    NormaliseOfLower(w);
  }

  /** The PostgreSQL kind is named "pssql": the usual name "postgres" is refused. */
  lemma ParseDatabaseTypeRejectsPostgres()
    ensures ParseDatabaseType("postgres") == Err(UnknownType)
  {
    var w := "postgres";
    assert IsLowerAscii(w);
    ParseDatabaseTypeRejectsOtherWord(w);
  }
}

/**
 * The data source name the program hands to the MySQL driver:
 * `user:password@tcp(host)/database`, with compiled-in credentials and host.
 */
module Dsn {
  import opened Products

  const Username: string := "root"
  const Password: string := "password"
  const Hostname: string := "127.0.0.1:3306"
  /** The database the program creates and then works in. */
  const DbName: string := "ecommerce"

  /** Everything a DSN holds before the database name. */
  const ServerPart: string := "root:password@tcp(127.0.0.1:3306)/"

  /**
   * `dsn(dbName)`: the `%s:%s@tcp(%s)/%s` format filled with the user, the
   * password, the host and `dbName`, each inserted verbatim.
   */
  function Dsn(dbName: string): (r: string)
    ensures r == ServerPart + dbName
    ensures |r| == |ServerPart| + |dbName| && r[|ServerPart|..] == dbName
  {
    ServerPartSpelled();
    Username + ":" + Password + "@tcp(" + Hostname + ")/" + dbName
  }

  /** The fixed part of the format, filled in, is `ServerPart`. */
  lemma ServerPartSpelled()
    ensures Username + ":" + Password + "@tcp(" + Hostname + ")/" == ServerPart
  {
    assert "root" + ":" == "root:";
    assert "root:" + "password" == "root:password";
    assert "root:password" + "@tcp(" == "root:password@tcp(";
    assert "root:password@tcp(" + "127.0.0.1:3306" == "root:password@tcp(127.0.0.1:3306";
    assert "root:password@tcp(127.0.0.1:3306" + ")/" == ServerPart;
  }

  /** Reads the database name back out of a DSN of this program's server; `None` for any other text. */
  function DatabaseOf(dsn: string): Option<string> {
    if ServerPart <= dsn then Some(dsn[|ServerPart|..]) else None
  }

  /** `DatabaseOf` inverts `Dsn`, in both directions. */
  lemma DsnRoundTrip(s: string, dbName: string)
    ensures DatabaseOf(Dsn(dbName)) == Some(dbName)
    ensures DatabaseOf(s) == Some(dbName) <==> s == Dsn(dbName)
  {
    var d := Dsn(dbName);
    assert d[..|ServerPart|] == ServerPart;
    if DatabaseOf(s) == Some(dbName) {
      assert s == s[..|ServerPart|] + s[|ServerPart|..];
    }
  }

  /** Different database names give different DSNs. */
  lemma DsnInjective(a: string, b: string)
    ensures Dsn(a) == Dsn(b) ==> a == b
  {
    DsnRoundTrip(Dsn(a), b);
    DsnRoundTrip(Dsn(b), a);
  }

  /** The DSN used to reach the server before the database exists ends in `/` and names no database. */
  lemma ServerOnlyDsn()
    ensures Dsn("") == ServerPart
    ensures Dsn("")[|Dsn("")| - 1] == '/'
    ensures DatabaseOf(Dsn("")) == Some("")
  {
    DsnRoundTrip(Dsn(""), "");
  }

  /** The DSN used once the database exists. */
  lemma DatabaseDsn()
    ensures Dsn(DbName) == "root:password@tcp(127.0.0.1:3306)/ecommerce"
  {
  }
}

/**
 * Configuration (`conf.go`): the feed-size constants and the Postgres
 * connection string assembled from the configured fields.
 */
module Config {
  import opened Text

  /** `FEED_SIZE_DEFAULT`: the page size used when a request names none. */
  const FeedSizeDefault: int := 24
  /** `FEED_SIZE_MAX`: the largest page size a request may ask for. */
  const FeedSizeMax: int := 48

  /** The default page size is itself an allowed page size. */
  lemma FeedSizeDefaultAllowed()
    ensures 0 < FeedSizeDefault <= FeedSizeMax
  {
  }

  /** The fields of `Conf` the connection string is made of. */
  datatype Conf = Conf(
    dbName: string,
    dbHost: string,
    dbPort: string,
    user: string,
    password: string,
    searchPath: string)

  /** The six segments every connection string starts with, in order. */
  function FixedSegments(c: Conf): seq<string> {
    [ "host=" + c.dbHost,
      "dbname=" + c.dbName,
      "sslmode=disable",
      "user=" + c.user,
      "search_path=" + c.searchPath,
      "timezone=UTC" ]
  }

  /** A segment that sets `key`: it starts with `key=`. */
  predicate Sets(seg: string, key: string) {
    HasPrefix(seg, key + "=")
  }

  /** Which key a segment sets is visible in its first two characters. */
  lemma SetsHead(seg: string, key: string)
    requires Sets(seg, key) && |key| >= 2
    ensures seg[0] == key[0] && seg[1] == key[1]
  {
    assert seg[..|key| + 1][0] == seg[0] && seg[..|key| + 1][1] == seg[1];
  }

  /**
   * The segments of `PostgresConnString`: the fixed six in order, then a
   * password segment exactly when a password is set, then a port segment
   * exactly when a port is set.
   */
  function ConnSegments(c: Conf): (r: seq<string>)
    ensures |r| == 6 + (if c.password != "" then 1 else 0) + (if c.dbPort != "" then 1 else 0)
    ensures r[..6] == FixedSegments(c)
    ensures (exists i :: 0 <= i < |r| && Sets(r[i], "password")) <==> c.password != ""
    ensures (exists i :: 0 <= i < |r| && Sets(r[i], "port")) <==> c.dbPort != ""
    ensures c.password != "" ==> r[6] == "password=" + c.password
    ensures c.dbPort != "" ==> r[|r| - 1] == "port=" + c.dbPort
  {
    var fixed := FixedSegments(c);
    var pw := if c.password != "" then ["password=" + c.password] else [];
    var port := if c.dbPort != "" then ["port=" + c.dbPort] else [];
    var r := fixed + pw + port;
    forall i | 0 <= i < |r| && (Sets(r[i], "password") || Sets(r[i], "port"))
      ensures 6 <= i
      ensures Sets(r[i], "password") ==> c.password != "" && i == 6
      ensures Sets(r[i], "port") ==> c.dbPort != "" && i == |r| - 1
    {
      if Sets(r[i], "password") { SetsHead(r[i], "password"); }
      if Sets(r[i], "port") { SetsHead(r[i], "port"); }
      if i == 6 && c.password != "" {
        assert r[i][1] == 'a';
      } else if 6 <= i {
        assert r[i] == "port=" + c.dbPort && r[i][1] == 'o';
      }
    }
    assert c.password != "" ==> Sets(r[6], "password") by {
      if c.password != "" {
        assert r[6] == "password=" + c.password;
        assert r[6][..9] == "password=";
      }
    }
    assert c.dbPort != "" ==> Sets(r[|r| - 1], "port") by {
      if c.dbPort != "" {
        assert r[|r| - 1][..5] == "port=";
      }
    }
    r
  }

  /** `Conf.PostgresConnString`: the segments joined by single spaces. */
  function PostgresConnString(c: Conf): string {
    Join(ConnSegments(c), " ")
  }

  /**
   * When no configured value contains a space, splitting the connection
   * string at spaces gives back exactly its segments: the fixed six in order,
   * then the password and the port segments when those are set.
   */
  lemma ConnStringSegments(c: Conf)
    requires ' ' !in c.dbName && ' ' !in c.dbHost && ' ' !in c.dbPort
    requires ' ' !in c.user && ' ' !in c.password && ' ' !in c.searchPath
    ensures Split(PostgresConnString(c), ' ') == ConnSegments(c)
  {
    var segs := ConnSegments(c);
    forall i | 0 <= i < |segs| ensures ' ' !in segs[i] {
      if i < 6 {
        assert segs[i] == FixedSegments(c)[i];
      }
    }
    SplitJoin(segs, ' ');
  }

  /**
   * Values are not quoted: a password holding a space splits the connection
   * string into more segments than were joined, so it no longer reads back.
   */
  lemma ConnStringSpacedPassword(c: Conf)
    requires ' ' in c.password
    ensures Split(PostgresConnString(c), ' ') != ConnSegments(c)
  {
    var segs := ConnSegments(c);
    var k :| 0 <= k < |c.password| && c.password[k] == ' ';
    assert segs[6][9 + k] == ' ';
  }
}

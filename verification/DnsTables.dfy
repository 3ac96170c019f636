/** The two tables behind the server's mutex and the statements run against them. */
module DnsTables {
  import opened Basics
  import opened Calendar
  import opened Rfc3339
  import Text

  /** `Ipv4Addr`. */
  type Ip = u32

  /** The library calls the statements go through: `Ipv4Addr`'s text form (`parse` is
      `from_str`, `show` is `to_string`), chrono's timestamps (`stamp` is `to_rfc3339`,
      `unstamp` is `parse_from_rfc3339`) and SQLite's text order. */
  datatype Platform = Platform(
    parse: string -> Option<Ip>,
    show: Ip -> string,
    stamp: nat -> string,
    unstamp: string -> Option<nat>,
    less: (string, string) -> bool)

  /** What the server relies on: texts are read back, and stamps sort by time. */
  ghost predicate Lawful(c: Platform) {
    && (forall ip: Ip :: c.parse(c.show(ip)) == Some(ip))
    && (forall t: nat :: t < END ==> c.unstamp(c.stamp(t)) == Some(t))
    && (forall t: nat, u: nat :: t < END && u < END ==> (c.less(c.stamp(t), c.stamp(u)) <==> t < u))
  }

  /** The timestamps and the order the program really uses. */
  function Chrono(parse: string -> Option<Ip>, show: Ip -> string): Platform {
    Platform(parse, show, (t: nat) => if t < END then ToRfc3339(t) else "", s => Parse(s), (a, b) => Text.Less(a, b))
  }

  /** Bytewise comparison of RFC 3339 texts is a sound way to compare expiries. */
  lemma ChronoIsLawful(parse: string -> Option<Ip>, show: Ip -> string)
    requires forall ip: Ip :: parse(show(ip)) == Some(ip)
    ensures Lawful(Chrono(parse, show))
  {
    var c := Chrono(parse, show);
    forall t: nat | t < END
      ensures c.unstamp(c.stamp(t)) == Some(t)
    {
      ParseBack(t);
    }
    forall t: nat, u: nat | t < END && u < END
      ensures c.less(c.stamp(t), c.stamp(u)) <==> t < u
    {
      TextOrderIsTimeOrder(t, u);
    }
  }

  datatype Row = Row(ip: string, expires: string)

  /** Both tables have a unique domain column and hold A records only. */
  datatype Tables = Tables(records: map<string, string>, cache: map<string, Row>)

  datatype Status = Updated | BadRequest | ServerError

  /** `trim_end_matches('.')`. */
  function Trim(domain: string): (r: string)
    ensures r <= domain && (r == [] || r[|r| - 1] != '.')
  {
    if domain != [] && domain[|domain| - 1] == '.' then Trim(domain[..|domain| - 1]) else domain
  }

  lemma {:induction false} TrimDropsOnlyDots(domain: string)
    ensures forall i :: |Trim(domain)| <= i < |domain| ==> domain[i] == '.'
  {
    if domain != [] && domain[|domain| - 1] == '.' { TrimDropsOnlyDots(domain[..|domain| - 1]); }
  }

  // `ok` is whether SQLite ran the statement.

  function LookupLocal(c: Platform, t: Tables, domain: string, ok: bool): Option<Ip> {
    if ok && Trim(domain) in t.records then c.parse(t.records[Trim(domain)]) else None
  }

  /** The expiry is compared as a parsed instant. */
  function LookupCache(c: Platform, t: Tables, domain: string, now: nat, ok: bool): Option<Ip> {
    if ok && Trim(domain) in t.cache then
      var row := t.cache[Trim(domain)];
      match c.unstamp(row.expires)
      case Some(e) => if now < e then c.parse(row.ip) else None
      case None => None
    else None
  }

  function Expiry(now: nat, ttl: u32): nat { now + ttl * 1_000_000_000 }

  function SaveToCache(c: Platform, t: Tables, domain: string, ip: string, ttl: u32, now: nat, ok: bool): Tables {
    if ok then t.(cache := t.cache[Trim(domain) := Row(ip, c.stamp(Expiry(now, ttl)))]) else t
  }

  /** The janitor compares the expiry as text. */
  function Cleanup(c: Platform, t: Tables, now: nat, ok: bool): Tables {
    if ok then t.(cache := map d | d in t.cache && !c.less(t.cache[d].expires, c.stamp(now)) :: t.cache[d]) else t
  }

  function UpdateStatus(c: Platform, ip: string, ok: bool): Status {
    if c.parse(ip).None? then BadRequest else if ok then Updated else ServerError
  }

  function DdnsUpdate(c: Platform, t: Tables, domain: string, ip: string, ok: bool): Tables {
    if UpdateStatus(c, ip, ok).Updated? then t.(records := t.records[Trim(domain) := ip]) else t
  }

  /** Every expiry in the cache is text this server wrote. */
  ghost predicate WellFormed(c: Platform, t: Tables) {
    forall d :: d in t.cache ==> Timestamp(c, t.cache[d].expires)
  }

  ghost predicate Timestamp(c: Platform, s: string) { exists e: Instant :: s == c.stamp(e) }

  /** The janitor deletes exactly the rows whose parsed expiry is past. */
  lemma CleanupDeletesExpired(c: Platform, t: Tables, now: nat, d: string)
    requires Lawful(c) && WellFormed(c, t) && now < END && d in t.cache
    ensures c.unstamp(t.cache[d].expires).Some?
    ensures d !in Cleanup(c, t, now, true).cache <==> c.unstamp(t.cache[d].expires).value < now
    ensures d in Cleanup(c, t, now, true).cache ==> Cleanup(c, t, now, true).cache[d] == t.cache[d]
  {
    var e: Instant :| t.cache[d].expires == c.stamp(e);
    assert c.less(c.stamp(e), c.stamp(now)) <==> e < now;
  }

  class Database {
    const platform: Platform
    var records: map<string, string>
    var cache: map<string, Row>

    ghost function View(): Tables
      reads this
    {
      Tables(records, cache)
    }

    constructor (platform: Platform)
      ensures this.platform == platform && View() == Tables(map[], map[])
    {
      this.platform := platform;
      records, cache := map[], map[];
    }

    method FindLocal(domain: string, ok: bool) returns (r: Option<Ip>)
      ensures r == LookupLocal(platform, View(), domain, ok)
    {
      var clean := Trim(domain);
      if !ok || clean !in records { return None; }
      return platform.parse(records[clean]);
    }

    method FindCached(domain: string, now: nat, ok: bool) returns (r: Option<Ip>)
      ensures r == LookupCache(platform, View(), domain, now, ok)
    {
      var clean := Trim(domain);
      if !ok || clean !in cache { return None; }
      var row := cache[clean];
      var expires := platform.unstamp(row.expires);
      if expires.Some? && now < expires.value { return platform.parse(row.ip); }
      return None;
    }

    method Save(domain: string, ip: string, ttl: u32, now: nat, ok: bool)
      modifies this
      ensures View() == SaveToCache(platform, old(View()), domain, ip, ttl, now, ok)
    {
      if ok {
        var expires := platform.stamp(Expiry(now, ttl));
        cache := cache[Trim(domain) := Row(ip, expires)];
      }
    }

    method Clean(now: nat, ok: bool)
      modifies this
      ensures View() == Cleanup(platform, old(View()), now, ok)
    {
      if ok {
        var nowText := platform.stamp(now);
        cache := map d | d in cache && !platform.less(cache[d].expires, nowText) :: cache[d];
      }
    }

    method Update(domain: string, ip: string, ok: bool) returns (status: Status)
      modifies this
      ensures status == UpdateStatus(platform, ip, ok)
      ensures status.BadRequest? <==> platform.parse(ip).None?
      ensures status.Updated? <==> platform.parse(ip).Some? && ok
      ensures View() == DdnsUpdate(platform, old(View()), domain, ip, ok)
    {
      if platform.parse(ip).None? { return BadRequest; }
      if !ok { return ServerError; }
      records := records[Trim(domain) := ip];
      return Updated;
    }
  }
}

/** The user-space half: reading rule files over and over and inserting their networks. */
module FirewallDaemon {
  import opened Basics
  import opened Bits
  import opened Firewall

  const MAX_ENTRIES: nat := 4096

  /** The parsers of the address library and `str::trim`. */
  datatype Library = Library(trim: string -> string, net: string -> Option<Net>, ip: string -> Option<Address>)

  /** A single address is the network of its full length. */
  function Host(a: Address): Net { Net(a, 8 * Octets(a.family)) }

  /** The rule on one line: blank lines, comments and anything unreadable give none. */
  function LineRule(lib: Library, line: string): Option<Net> {
    var entry := lib.trim(line);
    if entry == "" || entry[0] == '#' then None
    else if lib.net(entry).Some? then lib.net(entry)
    else if lib.ip(entry).Some? then Some(Host(lib.ip(entry).value))
    else None
  }

  function Rules(lib: Library, lines: seq<string>): set<Net> {
    set i | 0 <= i < |lines| && LineRule(lib, lines[i]).Some? :: LineRule(lib, lines[i]).value
  }

  /** A file version that could not be read is `None`. */
  type Version = Option<seq<string>>

  function AllRules(lib: Library, versions: seq<Version>): set<Net> {
    set i, n | 0 <= i < |versions| && versions[i].Some? && n in Rules(lib, versions[i].value) :: n
  }

  lemma HostContainsOnlyItself(a: Address, b: Address)
    ensures Contains(Host(a), b) <==> a == b
  {
    assert Pow2(HostBits(Host(a))) == 1;
    if a.family == b.family && Value(a.bytes) == Value(b.bytes) {
      BytesInjective(a.bytes, b.bytes);
    }
  }

  lemma {:induction false} BytesInjective(a: seq<byte>, b: seq<byte>)
    requires |a| == |b| && Value(a) == Value(b)
    ensures a == b
  {
    if a != [] {
      var n := |a| - 1;
      BytesInjective(a[..n], b[..n]);
      assert a == a[..n] + [a[n]] && b == b[..n] + [b[n]];
    }
  }

  lemma KeysUnion(a: set<Net>, b: set<Net>)
    ensures Keys(a + b) == Keys(a) + Keys(b)
  {
  }

  /** The keys in the map after a try to insert one more. */
  function Inserted(keys: set<BitString>, key: BitString): set<BitString> {
    if key in keys || |keys| < MAX_ENTRIES then keys + {key} else keys
  }

  /** `keys` came from `before` by trying to insert the keys in `done`, out of `wanted`. */
  ghost predicate Loading(before: set<BitString>, wanted: set<BitString>, done: set<BitString>, keys: set<BitString>) {
    && before <= keys <= before + wanted && |keys| <= MAX_ENTRIES
    && (keys == before + done || |keys| == MAX_ENTRIES)
    && (|before + wanted| <= MAX_ENTRIES ==> keys == before + done)
  }

  lemma LoadingNext(before: set<BitString>, wanted: set<BitString>, done: set<BitString>, keys: set<BitString>,
                    key: BitString)
    requires Loading(before, wanted, done, keys) && key in wanted
    ensures Loading(before, wanted, done + {key}, Inserted(keys, key))
  {
    assert keys + {key} == if key in keys then keys else keys + {key};
    if key !in keys {
      SubsetSize(keys + {key}, before + wanted);
      assert |keys + {key}| == |keys| + 1;
    }
  }

  lemma KeysNext(rules: set<Net>, todo: set<Net>, n: Net)
    requires n in todo && todo <= rules
    ensures Keys(rules - (todo - {n})) == Keys(rules - todo) + {RuleKey(n)} && RuleKey(n) in Keys(rules)
  {
    assert rules - (todo - {n}) == (rules - todo) + {n};
    KeysUnion(rules - todo, {n});
    assert Keys({n}) == {RuleKey(n)};
  }

  class Daemon {
    const lib: Library
    var trie: Trie

    ghost predicate Valid()
      reads this
    {
      |trie.Keys| <= MAX_ENTRIES
    }

    constructor (lib: Library)
      ensures Valid() && this.lib == lib && trie == map[]
    {
      this.lib := lib;
      trie := map[];
    }

    /** The kernel refuses a new key once the map is full; the error is ignored. */
    method Insert(n: Net)
      requires Valid()
      modifies this
      ensures Valid() && trie.Keys == Inserted(old(trie.Keys), RuleKey(n))
    {
      assert |trie| == |trie.Keys|;
      if RuleKey(n) in trie || |trie| < MAX_ENTRIES { trie := trie[RuleKey(n) := 1]; }
    }

    method ParseRules(lines: seq<string>) returns (rules: set<Net>)
      ensures rules == Rules(lib, lines)
    {
      rules := {};
      for i := 0 to |lines|
        invariant rules == Rules(lib, lines[..i])
      {
        assert lines[..i + 1][..i] == lines[..i];
        var rule := LineRule(lib, lines[i]);
        RulesNext(lib, lines[..i], lines[i]);
        assert lines[..i + 1] == lines[..i] + [lines[i]];
        if rule.Some? { rules := rules + {rule.value}; }
      }
      assert lines[..|lines|] == lines;
    }

    /** One reload, in whatever order the set is visited. Only rules of the file are added,
        nothing is removed, and all of them are there if the map had room for them; otherwise
        it is filled to the last entry. */
    method Reload(lines: seq<string>)
      requires Valid()
      modifies this
      ensures Valid() && old(trie.Keys) <= trie.Keys <= old(trie.Keys) + Keys(Rules(lib, lines))
      ensures trie.Keys == old(trie.Keys) + Keys(Rules(lib, lines)) || |trie.Keys| == MAX_ENTRIES
      ensures |old(trie.Keys) + Keys(Rules(lib, lines))| <= MAX_ENTRIES ==>
                trie.Keys == old(trie.Keys) + Keys(Rules(lib, lines))
    {
      var rules := ParseRules(lines);
      ghost var before := trie.Keys;
      var todo := rules;
      assert Keys(rules - todo) == {};
      while todo != {}
        invariant Valid() && todo <= rules && Loading(before, Keys(rules), Keys(rules - todo), trie.Keys)
        decreases todo
      {
        var n :| n in todo;
        KeysNext(rules, todo, n);
        LoadingNext(before, Keys(rules), Keys(rules - todo), trie.Keys, RuleKey(n));
        Insert(n);
        todo := todo - {n};
      }
      assert rules - todo == rules;
    }

    /** The reload loop over any series of file versions: within capacity, the map holds
        exactly the rules of all versions read, and beyond it as many as it can. */
    method Serve(versions: seq<Version>)
      requires trie == map[]
      modifies this
      ensures Valid() && trie.Keys <= Keys(AllRules(lib, versions))
      ensures trie.Keys == Keys(AllRules(lib, versions)) || |trie.Keys| == MAX_ENTRIES
      ensures |Keys(AllRules(lib, versions))| <= MAX_ENTRIES ==> trie.Keys == Keys(AllRules(lib, versions))
    {
      hide Keys, Rules, AllRules;
      NoRules(lib);
      assert versions[..0] == [];
      for i := 0 to |versions|
        invariant Valid() && Loaded(Keys(AllRules(lib, versions[..i])), trie.Keys)
      {
        assert versions[..i + 1] == versions[..i] + [versions[i]];
        ghost var a, before := AllRules(lib, versions[..i]), trie.Keys;
        AllRulesNext(lib, versions[..i], versions[i]);
        if versions[i].Some? {
          ghost var b := Rules(lib, versions[i].value);
          KeysUnion(a, b);
          Reload(versions[i].value);
          LoadedNext(Keys(a), Keys(b), before, trie.Keys);
        } else {
          assert AllRules(lib, versions[..i + 1]) == a;
        }
      }
      assert versions[..|versions|] == versions;
    }
  }

  /** The map holds only the wanted keys, and all of them if they fit. */
  ghost predicate Loaded(wanted: set<BitString>, keys: set<BitString>) {
    keys <= wanted && (keys == wanted || |keys| == MAX_ENTRIES) && (|wanted| <= MAX_ENTRIES ==> keys == wanted)
  }

  lemma LoadedNext(a: set<BitString>, b: set<BitString>, before: set<BitString>, keys: set<BitString>)
    requires Loaded(a, before) && before <= keys <= before + b
    requires (keys == before + b || |keys| == MAX_ENTRIES) && |keys| <= MAX_ENTRIES
    requires |before + b| <= MAX_ENTRIES ==> keys == before + b
    ensures Loaded(a + b, keys)
  {
    if |before| == MAX_ENTRIES { FullStays(before, keys); }
    SubsetSize(a, a + b);
    SubsetSize(before + b, a + b);
  }

  lemma FullStays(a: set<BitString>, b: set<BitString>)
    requires a <= b && |b| <= |a|
    ensures a == b
  {
    if x :| x in b && x !in a { SubsetSize(a + {x}, b); }
  }

  lemma NoRules(lib: Library)
    ensures Keys(AllRules(lib, [])) == {}
  {
  }

  lemma RulesNext(lib: Library, lines: seq<string>, line: string)
    ensures Rules(lib, lines + [line])
            == Rules(lib, lines) + match LineRule(lib, line) case Some(n) => {n} case None => {}
  {
    var more := lines + [line];
    assert forall i :: 0 <= i < |lines| ==> more[i] == lines[i];
    assert more[|lines|] == line;
  }

  lemma AllRulesNext(lib: Library, versions: seq<Version>, v: Version)
    ensures AllRules(lib, versions + [v])
            == AllRules(lib, versions) + match v case Some(lines) => Rules(lib, lines) case None => {}
  {
    var more := versions + [v];
    assert forall i :: 0 <= i < |versions| ==> more[i] == versions[i];
    assert more[|versions|] == v;
  }

  /** The line is read as a rule at all: neither blank nor a comment. */
  predicate Meant(lib: Library, line: string) { lib.trim(line) != "" && lib.trim(line)[0] != '#' }

  /** The line blocks the address: it names a network that contains it, or, being no network,
      the address itself. */
  predicate LineBlocks(lib: Library, line: string, a: Address) {
    var entry := lib.trim(line);
    Meant(lib, line)
    && (match lib.net(entry)
        case Some(n) => Contains(n, a)
        case None => lib.ip(entry) == Some(a))
  }

  lemma LineMeans(lib: Library, line: string, a: Address)
    ensures LineBlocks(lib, line, a) <==> LineRule(lib, line).Some? && Contains(LineRule(lib, line).value, a)
  {
    var entry := lib.trim(line);
    if lib.ip(entry).Some? { HostContainsOnlyItself(lib.ip(entry).value, a); }
  }

  /** Some line of some version that was read blocks the address. */
  ghost predicate BlockedBy(lib: Library, versions: seq<Version>, a: Address) {
    exists i, j :: 0 <= i < |versions| && versions[i].Some? && 0 <= j < |versions[i].value|
                   && LineBlocks(lib, versions[i].value[j], a)
  }

  lemma BlockedByRules(lib: Library, versions: seq<Version>, a: Address)
    ensures BlockedBy(lib, versions, a) <==> exists n :: n in AllRules(lib, versions) && Contains(n, a)
  {
    hide Contains, LineRule, LineBlocks;
    if BlockedBy(lib, versions, a) {
      var i, j :| 0 <= i < |versions| && versions[i].Some? && 0 <= j < |versions[i].value|
                  && LineBlocks(lib, versions[i].value[j], a);
      LineMeans(lib, versions[i].value[j], a);
      var n := LineRule(lib, versions[i].value[j]).value;
      assert n in Rules(lib, versions[i].value);
      assert n in AllRules(lib, versions) && Contains(n, a);
    }
    if n :| n in AllRules(lib, versions) && Contains(n, a) {
      var i :| 0 <= i < |versions| && versions[i].Some? && n in Rules(lib, versions[i].value);
      var j :| 0 <= j < |versions[i].value| && LineRule(lib, versions[i].value[j]) == Some(n);
      LineMeans(lib, versions[i].value[j], a);
      assert LineBlocks(lib, versions[i].value[j], a);
    }
  }

  /** After any series of file versions that fits the map, a packet is dropped exactly when it
      is TCP over IP from an address that some line of some version blocks. */
  lemma BlockedIsUnion(lib: Library, versions: seq<Version>, t: Trie, p: seq<byte>, little: bool)
    requires t.Keys == Keys(AllRules(lib, versions))
    ensures Decide(p, t, little).Drop? <==>
              TcpSource(p).Some? && BlockedBy(lib, versions, TcpSource(p).value)
  {
    DropIsMembership(p, t, AllRules(lib, versions), little);
    if TcpSource(p).Some? { BlockedByRules(lib, versions, TcpSource(p).value); }
  }

  /** Two ways of writing the same network, host bits set or not, give the same key. */
  lemma HostBitsDoNotMatter(m: Net, n: Net)
    requires m.prefix == n.prefix && Contains(m, n.address)
    ensures RuleKey(m) == RuleKey(n)
  {
    KeyIsMembership(m, n.address);
    KeyIsMembership(n, n.address);
    assert |RuleKey(m)| == |RuleKey(n)|;
    assert RuleKey(m) == PacketKey(n.address)[..|RuleKey(m)|];
    assert RuleKey(n) == PacketKey(n.address)[..|RuleKey(n)|];
  }
}

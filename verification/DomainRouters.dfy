/**
The routers for the portal and console domains, which the firewall injects into the base
configuration whenever it applies its state.
*/
module DomainRouters {
  import opened GoStrings
  import opened FirewallText

  /** The two domain settings of the store; "" when unset or unreadable. */
  datatype Domains = Domains(portal: string, console: string)

  const ROUTERS := "  routers:\n"

  function KeyLine(name: string): string {
    "    " + (name + ":")
  }

  /** A router entry: its name, and the text under its key line. */
  datatype Router = Router(name: string, body: string)

  /** The lines, each with its end. */
  function Ended(lines: seq<string>): string {
    if lines == [] then "" else lines[0] + ("\n" + Ended(lines[1..]))
  }

  function RouterBody(rule: string, service: string, priority: string): string {
    Ended(["      rule: \"" + rule + "\"", "      entryPoints: [\"websecure\"]", "      service: " + service,
           "      middlewares: [\"https-headers\"]", "      priority: " + priority, ""])
  }

  function Text(routers: seq<Router>): string {
    if routers == [] then "" else KeyLine(routers[0].name) + "\n" + routers[0].body + Text(routers[1..])
  }

  /** The three routers of a domain. */
  function Routers(name: string, domain: string): seq<Router> {
    var host := "Host(`" + domain + "`)";
    [Router(name, RouterBody(host, "polyon-console", "10")),
     Router(name + "-auth", RouterBody(host + " && PathPrefix(`/auth`)", "keycloak", "100")),
     Router(name + "-api", RouterBody(host + " && PathPrefix(`/api`)", "polyon-core", "50"))]
  }

  const PORTAL_HEADING := "\n    # ── Portal / Service Domains (HTTPS :443) ──\n"

  /** A block to inject, and the text whose presence says that it is there. */
  datatype Block = Block(key: string, text: string)

  /** The block of one domain. */
  function DomainBlock(heading: string, name: string, domain: string): Block {
    Block(name + ":", heading + Text(Routers(name, domain)))
  }

  function PortalBlock(domains: Domains): Block {
    DomainBlock(PORTAL_HEADING, "portal", domains.portal)
  }

  function ConsoleBlock(domains: Domains): Block {
    DomainBlock("", "console-domain", domains.console)
  }

  /** The blocks for the domains that are set. */
  function Blocks(domains: Domains): seq<Block> {
    (if domains.portal != "" then [PortalBlock(domains)] else []) +
    (if domains.console != "" then [ConsoleBlock(domains)] else [])
  }

  /** Puts a block behind the first routers header, unless the text has its key already. */
  function Insert(base: string, block: Block): string {
    if Contains(base, block.key) then base else ReplaceFirst(base, ROUTERS, ROUTERS + block.text)
  }

  function InsertAll(base: string, blocks: seq<Block>): string
    decreases |blocks|
  {
    if blocks == [] then base else InsertAll(Insert(base, blocks[0]), blocks[1..])
  }

  function Inject(base: string, domains: Domains): string {
    InsertAll(base, Blocks(domains))
  }

  // ---------- Injecting once ----------

  predicate GoodBlock(block: Block) {
    SingleLine(block.key) && Contains(block.text, block.key)
  }

  /** The text has the key, or no place where the block could go. */
  predicate Settled(base: string, block: Block) {
    Contains(base, block.key) || !Contains(base, ROUTERS)
  }

  lemma SettledIsUnchanged(base: string, block: Block)
    requires Settled(base, block)
    ensures Insert(base, block) == base
  {
    var found, a, b := ReplaceFirstSeam(base, ROUTERS, ROUTERS + block.text);
  }

  /** Text put in at the end of a line breaks no occurrence of a needle without a newline. */
  lemma InsertionKeeps(a: string, text: string, b: string, t: string)
    requires SingleLine(t) && Contains(a + "\n" + b, t)
    ensures Contains(a + "\n" + text + b, t)
  {
    var s, r := a + "\n" + b, a + "\n" + text + b;
    var i :| 0 <= i <= |s| && At(s, t, i);
    if i + |t| <= |a| + 1 {
      assert r[i..i + |t|] == s[i..i + |t|];
      assert At(r, t, i);
    } else if i > |a| {
      assert r[i + |text|..i + |text| + |t|] == s[i..i + |t|];
      assert At(r, t, i + |text|);
    } else {
      CoveredIsMember(s, t, i, |a|);
    }
  }

  /** An insertion settles its own block and unsettles no other. */
  lemma InsertSettles(base: string, block: Block, other: Block)
    requires GoodBlock(block) && SingleLine(other.key)
    ensures Settled(Insert(base, block), block)
    ensures Settled(base, other) ==> Settled(Insert(base, block), other)
  {
    if Settled(base, block) {
      SettledIsUnchanged(base, block);
    } else {
      var found, a, b := ReplaceFirstSeam(base, ROUTERS, ROUTERS + block.text);
      var pre, r := a + "  routers:", Insert(base, block);
      assert ROUTERS == "  routers:" + "\n";
      assert base == pre + "\n" + b && r == pre + "\n" + block.text + b;
      ContainsWithin(pre + "\n", block.text, b, block.key);
      if Contains(base, other.key) {
        InsertionKeeps(pre, block.text, b, other.key);
      }
    }
  }

  lemma {:induction false} InsertAllSettles(base: string, blocks: seq<Block>, other: Block)
    requires SingleLine(other.key) && forall k :: k in blocks ==> GoodBlock(k)
    ensures other in blocks || Settled(base, other) ==> Settled(InsertAll(base, blocks), other)
    decreases |blocks|
  {
    if blocks != [] {
      assert blocks[0] in blocks;
      InsertSettles(base, blocks[0], other);
      InsertAllSettles(Insert(base, blocks[0]), blocks[1..], other);
    }
  }

  lemma {:induction false} AllSettledIsUnchanged(base: string, blocks: seq<Block>)
    requires forall k :: k in blocks ==> Settled(base, k)
    ensures InsertAll(base, blocks) == base
    decreases |blocks|
  {
    if blocks != [] {
      assert blocks[0] in blocks;
      SettledIsUnchanged(base, blocks[0]);
      AllSettledIsUnchanged(base, blocks[1..]);
    }
  }

  lemma TextHasKey(heading: string, routers: seq<Router>)
    requires routers != []
    ensures Contains(heading + Text(routers), routers[0].name + ":")
  {
    Regroup(heading, KeyLine(routers[0].name), routers[0].body, Text(routers[1..]));
    KeyStandsIn(heading, routers[0].name + ":", "\n" + (routers[0].body + Text(routers[1..])));
  }

  lemma KeyStandsIn(heading: string, key: string, rest: string)
    ensures Contains(heading + ("    " + key) + rest, key)
  {
    ContainsPart(heading + "    ", key, rest);
    assert heading + ("    " + key) == heading + "    " + key;
  }

  lemma Regroup(heading: string, line: string, body: string, rest: string)
    ensures heading + (line + "\n" + body + rest) == heading + line + ("\n" + (body + rest))
    ensures heading + (line + "\n" + body + rest) == heading + line + "\n" + (body + rest)
    ensures heading + (line + "\n" + body + rest) == heading + line + "\n" + body + rest
  {
  }

  lemma DomainBlockIsGood(heading: string, name: string, domain: string)
    requires SingleLine(name)
    ensures GoodBlock(DomainBlock(heading, name, domain))
  {
    TextHasKey(heading, Routers(name, domain));
  }

  lemma PortalBlockIsGood(domains: Domains)
    ensures GoodBlock(PortalBlock(domains))
  {
    DomainBlockIsGood(PORTAL_HEADING, "portal", domains.portal);
  }

  lemma ConsoleBlockIsGood(domains: Domains)
    ensures GoodBlock(ConsoleBlock(domains))
  {
    DomainBlockIsGood("", "console-domain", domains.console);
  }

  lemma BlocksAreGood(domains: Domains)
    ensures forall k :: k in Blocks(domains) ==> GoodBlock(k)
  {
    PortalBlockIsGood(domains);
    ConsoleBlockIsGood(domains);
    SomeAreGood(domains.portal != "", PortalBlock(domains), domains.console != "", ConsoleBlock(domains));
  }

  lemma SomeAreGood(first: bool, p: Block, second: bool, c: Block)
    requires GoodBlock(p) && GoodBlock(c)
    ensures forall k :: k in (if first then [p] else []) + (if second then [c] else []) ==> GoodBlock(k)
  {
  }

  /**
  Injecting is idempotent: a base that was saved from a container with injected routers
  does not get them a second time.
  */
  lemma InjectIsIdempotent(base: string, domains: Domains)
    ensures Inject(Inject(base, domains), domains) == Inject(base, domains)
  {
    BlocksAreGood(domains);
    forall k | k in Blocks(domains) ensures Settled(Inject(base, domains), k) {
      InsertAllSettles(base, Blocks(domains), k);
    }
    AllSettledIsUnchanged(Inject(base, domains), Blocks(domains));
  }

  /** A block goes in right behind the first routers header at two spaces. */
  lemma InsertGoesBehindFirst(base: string, block: Block) returns (a: string, b: string)
    requires !Contains(base, block.key) && Contains(base, "  routers:\n")
    ensures base == a + "  routers:\n" + b && forall q :: 0 <= q < |a| ==> !At(base, "  routers:\n", q)
    ensures Insert(base, block) == a + ("  routers:\n" + block.text) + b
  {
    var found;
    found, a, b := ReplaceFirstSeam(base, ROUTERS, ROUTERS + block.text);
  }

  /**
  Nothing is injected for a domain that is not set, for one whose key is in the text, or where there is no such
  header.
  */
  lemma InjectChangesNothing(base: string, domains: Domains)
    requires !Contains(base, "  routers:\n") ||
             ((domains.portal == "" || Contains(base, "portal:")) &&
              (domains.console == "" || Contains(base, "console-domain:")))
    ensures Inject(base, domains) == base
  {
    var blocks := Blocks(domains);
    assert "portal" + ":" == "portal:" && "console-domain" + ":" == "console-domain:";
    forall k | k in blocks ensures Settled(base, k) {
    }
    AllSettledIsUnchanged(base, blocks);
  }

  // ---------- Injected keys and the scan ----------

  lemma LeadingSpace(t: string)
    ensures TrimLeft([' '] + t) == TrimLeft(t) && Indent([' '] + t) == 1 + Indent(t)
  {
  }

  lemma FourSpaces(t: string)
    requires Trimmed(t) && t != ""
    ensures TrimSpace("    " + t) == t && Indent("    " + t) == 4
  {
    assert "    " + t == [' '] + ([' '] + ([' '] + ([' '] + t)));
    LeadingSpace([' '] + ([' '] + ([' '] + t)));
    LeadingSpace([' '] + ([' '] + t));
    LeadingSpace([' '] + t);
    LeadingSpace(t);
    assert t[0] != ' ';
  }

  /** The key line of an injected block stands at four spaces, and the scan takes it for the end of the section. */
  lemma InjectedKeyEndsSection(name: string)
    requires name in ROUTER_NAMES
    ensures EndsSection(KeyLine(name))
  {
    FourSpaces(name + ":");
    assert (name + ":")[|name|..] == ":";
    assert (name + ":")[0] != '#' && (name + ":")[0] != 'r' && "routers:"[0] == 'r' && "routers: {}"[0] == 'r';
  }

  const ROUTER_NAMES := ["portal", "portal-auth", "portal-api", "console-domain", "console-domain-auth",
                         "console-domain-api"]

  // ---------- Injected lines ----------

  /** A block that goes in leaves all lines of the text as they were, with its own lines between two of them. */
  lemma InsertAddsLines(base: string, block: Block) returns (above: seq<string>, below: seq<string>)
    requires !Settled(base, block) && EndsLine(block.text)
    ensures Split(base) == above + below
    ensures Split(Insert(base, block)) == above + Split(block.text[..|block.text| - 1]) + below
  {
    var found, a, b := ReplaceFirstSeam(base, ROUTERS, ROUTERS + block.text);
    var pre, text := a + "  routers:", block.text[..|block.text| - 1];
    assert ROUTERS == "  routers:" + "\n" && block.text == text + "\n";
    assert base == pre + "\n" + b && Insert(base, block) == (pre + "\n" + text) + "\n" + b;
    SplitAtNewline(pre, b);
    SplitAtNewline(pre + "\n" + text, b);
    SplitAtNewline(pre, text);
    above, below := Split(pre), Split(b);
  }

  lemma InsertKeepsLines(base: string, block: Block, l: string)
    requires EndsLine(block.text) && l in Split(base)
    ensures l in Split(Insert(base, block))
  {
    if Settled(base, block) {
      SettledIsUnchanged(base, block);
    } else {
      var above, below := InsertAddsLines(base, block);
    }
  }

  lemma BlockLineIsInserted(base: string, block: Block, l: string)
    requires !Settled(base, block) && EndsLine(block.text) && l in Split(block.text) && l != ""
    ensures l in Split(Insert(base, block))
  {
    var text := block.text[..|block.text| - 1];
    assert block.text == text + "\n" + "";
    SplitAtNewline(text, "");
    var above, below := InsertAddsLines(base, block);
  }

  lemma {:induction false} TextEndsLine(heading: string, routers: seq<Router>)
    requires routers != [] && forall r :: r in routers ==> EndsLine(r.body)
    ensures EndsLine(heading + Text(routers))
    decreases |routers|
  {
    assert routers[0] in routers;
    if |routers| > 1 {
      TextEndsLine("", routers[1..]);
    }
  }

  lemma {:induction false} KeyLinesOfText(heading: string, routers: seq<Router>, k: nat)
    requires (heading == "" || EndsLine(heading)) && k < |routers| && SingleLine(routers[k].name)
    requires forall r :: r in routers ==> EndsLine(r.body)
    ensures KeyLine(routers[k].name) in Split(heading + Text(routers))
    decreases k
  {
    var line, body, rest := KeyLine(routers[0].name), routers[0].body, Text(routers[1..]);
    assert routers[0] in routers;
    Regroup(heading, line, body, rest);
    if k == 0 {
      LineBetween(heading, line, body + rest);
    } else {
      KeyLinesOfText(heading + line + "\n" + body, routers[1..], k - 1);
    }
  }

  lemma BodiesEndLines(name: string, domain: string)
    ensures forall r :: r in Routers(name, domain) ==> EndsLine(r.body)
  {
    BodyEndsLine("Host(`" + domain + "`)", "polyon-console", "10");
    BodyEndsLine("Host(`" + domain + "`)" + " && PathPrefix(`/auth`)", "keycloak", "100");
    BodyEndsLine("Host(`" + domain + "`)" + " && PathPrefix(`/api`)", "polyon-core", "50");
  }

  lemma BodyEndsLine(rule: string, service: string, priority: string)
    ensures EndsLine(RouterBody(rule, service, priority))
  {
    EndedEndsLine(["      rule: \"" + rule + "\"", "      entryPoints: [\"websecure\"]", "      service: " + service,
                   "      middlewares: [\"https-headers\"]", "      priority: " + priority, ""]);
  }

  /** The lines of one router's entry, the blank one after it included. */
  function EntryLines(name: string, rule: string, service: string, priority: string): seq<string> {
    ["    " + name + ":",
     "      rule: \"" + rule + "\"",
     "      entryPoints: [\"websecure\"]",
     "      service: " + service,
     "      middlewares: [\"https-headers\"]",
     "      priority: " + priority,
     ""]
  }

  lemma {:induction false} EndedLines(lines: seq<string>, rest: string)
    requires forall l :: l in lines ==> SingleLine(l)
    ensures Split(Ended(lines) + rest) == lines + Split(rest)
    decreases |lines|
  {
    if lines == [] {
      assert Ended(lines) + rest == rest;
    } else {
      assert lines[0] in lines && forall l :: l in lines[1..] ==> l in lines;
      var more := Ended(lines[1..]) + rest;
      EndedLines(lines[1..], rest);
      EndThenMore(lines[0], Ended(lines[1..]), rest);
      SplitAtNewline(lines[0], more);
      SplitSingle(lines[0]);
      HeadAndTail(lines, Split(rest));
    }
  }

  lemma HeadAndTail(lines: seq<string>, rest: seq<string>)
    requires lines != []
    ensures [lines[0]] + (lines[1..] + rest) == lines + rest
  {
  }

  lemma EndThenMore(line: string, ended: string, rest: string)
    ensures line + ("\n" + ended) + rest == line + "\n" + (ended + rest)
  {
  }

  lemma {:induction false} EndedEndsLine(lines: seq<string>)
    requires lines != []
    ensures EndsLine(Ended(lines))
    decreases |lines|
  {
    if |lines| > 1 {
      EndedEndsLine(lines[1..]);
    }
  }

  lemma HeadThenEnded(head: string, lines: seq<string>, rest: string)
    requires SingleLine(head) && forall l :: l in lines ==> SingleLine(l)
    ensures Split(head + "\n" + Ended(lines) + rest) == [head] + lines + Split(rest)
  {
    EndedLines(lines, rest);
    SplitAtNewline(head, Ended(lines) + rest);
    SplitSingle(head);
    AppendIsAssociative(head + "\n", Ended(lines), rest);
    OneMoreHead(head, lines, Split(rest));
  }

  lemma OneMoreHead(head: string, lines: seq<string>, rest: seq<string>)
    ensures [head] + (lines + rest) == [head] + lines + rest
  {
  }

  lemma EntryThenMore(name: string, rule: string, service: string, priority: string, rest: string)
    requires SingleLine(name) && SingleLine(rule) && SingleLine(service) && SingleLine(priority)
    ensures Split(KeyLine(name) + "\n" + RouterBody(rule, service, priority) + rest) ==
      EntryLines(name, rule, service, priority) + Split(rest)
  {
    var lines := EntryLines(name, rule, service, priority);
    HeadThenEnded(KeyLine(name), lines[1..], rest);
    assert lines[0] == KeyLine(name);
    assert [lines[0]] + lines[1..] == lines;
  }

  lemma TextThenMore(r: Router, more: seq<Router>)
    ensures Text([r] + more) == KeyLine(r.name) + "\n" + r.body + Text(more)
  {
    assert ([r] + more)[1..] == more;
  }

  /** The lines that a block for a domain brings, word for word. */
  lemma BlockLines(name: string, domain: string)
    requires SingleLine(name) && SingleLine(domain)
    ensures Split(Text(Routers(name, domain))) ==
      EntryLines(name, "Host(`" + domain + "`)", "polyon-console", "10") +
      (EntryLines(name + "-auth", "Host(`" + domain + "`) && PathPrefix(`/auth`)", "keycloak", "100") +
       (EntryLines(name + "-api", "Host(`" + domain + "`) && PathPrefix(`/api`)", "polyon-core", "50") + [""]))
  {
    var host := "Host(`" + domain + "`)";
    var auth, api := host + " && PathPrefix(`/auth`)", host + " && PathPrefix(`/api`)";
    RuleForms(domain);
    var rs := Routers(name, domain);
    assert rs == [rs[0]] + ([rs[1]] + ([rs[2]] + []));
    TextThenMore(rs[0], [rs[1]] + ([rs[2]] + []));
    TextThenMore(rs[1], [rs[2]] + []);
    TextThenMore(rs[2], []);
    EntryThenMore(name, host, "polyon-console", "10", Text([rs[1]] + ([rs[2]] + [])));
    EntryThenMore(name + "-auth", auth, "keycloak", "100", Text([rs[2]] + []));
    EntryThenMore(name + "-api", api, "polyon-core", "50", "");
  }

  lemma RuleForms(domain: string)
    ensures "Host(`" + domain + "`) && PathPrefix(`/auth`)" == "Host(`" + domain + "`)" + " && PathPrefix(`/auth`)"
    ensures "Host(`" + domain + "`) && PathPrefix(`/api`)" == "Host(`" + domain + "`)" + " && PathPrefix(`/api`)"
    ensures SingleLine(domain) ==> SingleLine("Host(`" + domain + "`)")
  {
  }

  // ---------- Injected routers are out of reach ----------

  /** The key line of every router of a block that goes in stands in the text from then on. */
  lemma RouterIsInserted(base: string, heading: string, name: string, domain: string, k: nat)
    requires (heading == "" || EndsLine(heading)) && SingleLine(name) && k < 3
    requires !Settled(base, DomainBlock(heading, name, domain))
    ensures KeyLine(Routers(name, domain)[k].name) in Split(Insert(base, DomainBlock(heading, name, domain)))
    ensures EndsLine(DomainBlock(heading, name, domain).text)
  {
    var routers, block := Routers(name, domain), DomainBlock(heading, name, domain);
    BodiesEndLines(name, domain);
    KeyLinesOfText(heading, routers, k);
    TextEndsLine(heading, routers);
    BlockLineIsInserted(base, block, KeyLine(routers[k].name));
  }

  /** Lines from `p` up to the next routers header are the same whatever is blocked. */
  ghost predicate OutOfReach(text: string, p: nat) {
    forall keys, i {:trigger Commented(Split(text), keys)[i]} ::
      p <= i < |Split(text)| && (forall h :: p < h <= i ==> !IsHeaderLine(Split(text)[h])) ==>
        Commented(Split(text), keys)[i] == Split(text)[i]
  }

  lemma KeyLineIsOutOfReach(text: string, p: nat, name: string)
    requires name in ROUTER_NAMES && p < |Split(text)| && Split(text)[p] == KeyLine(name)
    ensures OutOfReach(text, p)
  {
    var lines := Split(text);
    InjectedKeyEndsSection(name);
    forall keys, i {:trigger Commented(Split(text), keys)[i]}
      | p <= i < |lines| && (forall h :: p < h <= i ==> !IsHeaderLine(lines[h]))
      ensures Commented(lines, keys)[i] == lines[i]
    {
      ShallowKeysAreNeverBlocked(lines, p, i, keys);
    }
  }

  /** The text into which the console block is put. */
  function WithPortal(base: string, domains: Domains): string {
    if domains.portal != "" then Insert(base, PortalBlock(domains)) else base
  }

  lemma InjectInSteps(base: string, domains: Domains)
    ensures Inject(base, domains) ==
      if domains.console != "" then Insert(WithPortal(base, domains), ConsoleBlock(domains))
      else WithPortal(base, domains)
  {
    InsertSome(base, domains.portal != "", PortalBlock(domains), domains.console != "", ConsoleBlock(domains));
  }

  lemma InsertSome(base: string, first: bool, p: Block, second: bool, c: Block)
    ensures
      var mid := if first then Insert(base, p) else base;
      InsertAll(base, (if first then [p] else []) + (if second then [c] else [])) ==
      if second then Insert(mid, c) else mid
  {
    var ps, cs := if first then [p] else [], if second then [c] else [];
    var mid := if first then Insert(base, p) else base;
    assert first ==> (ps + cs)[0] == p && (ps + cs)[1..] == cs;
    assert !first ==> ps + cs == cs;
    assert second ==> cs[1..] == [];
    assert InsertAll(base, ps + cs) == InsertAll(mid, cs);
  }

  /** The portal domain is set, its key is not there yet, there is a place for its block, and this router is in it. */
  ghost predicate PortalAdds(base: string, domains: Domains, router: string) {
    domains.portal != "" && !Settled(base, PortalBlock(domains)) &&
    exists k :: 0 <= k < 3 && router == Routers("portal", domains.portal)[k].name
  }

  /** The same for the console domain, whose turn comes after. */
  ghost predicate ConsoleAdds(base: string, domains: Domains, router: string) {
    domains.console != "" && !Settled(WithPortal(base, domains), ConsoleBlock(domains)) &&
    exists k :: 0 <= k < 3 && router == Routers("console-domain", domains.console)[k].name
  }

  ghost predicate Injected(base: string, domains: Domains, router: string) {
    PortalAdds(base, domains, router) || ConsoleAdds(base, domains, router)
  }

  /**
  No set of blocked keys ever touches an injected router: its key line stands in the text, and from
  there to the next routers header every line stays in force.
  */
  lemma InjectedRoutersAreNeverBlocked(base: string, domains: Domains, router: string)
    requires Injected(base, domains, router)
    ensures KeyLine(router) in Split(Inject(base, domains))
    ensures var lines := Split(Inject(base, domains));
      forall p :: 0 <= p < |lines| && lines[p] == KeyLine(router) ==> OutOfReach(Inject(base, domains), p)
  {
    InjectInSteps(base, domains);
    InjectedLineStands(base, domains, router);
    InjectedNames(base, domains, router);
    forall p | 0 <= p < |Split(Inject(base, domains))| && Split(Inject(base, domains))[p] == KeyLine(router)
      ensures OutOfReach(Inject(base, domains), p)
    {
      KeyLineIsOutOfReach(Inject(base, domains), p, router);
    }
  }

  lemma InjectedNames(base: string, domains: Domains, router: string)
    requires Injected(base, domains, router)
    ensures router in ROUTER_NAMES
  {
    assert "portal" + "-auth" == "portal-auth" && "portal" + "-api" == "portal-api";
    assert "console-domain" + "-auth" == "console-domain-auth" && "console-domain" + "-api" == "console-domain-api";
  }

  lemma InjectedLineStands(base: string, domains: Domains, router: string)
    requires Injected(base, domains, router)
    ensures KeyLine(router) in Split(Inject(base, domains))
  {
    InjectInSteps(base, domains);
    if PortalAdds(base, domains, router) {
      PortalLineStands(base, domains, router);
      ConsoleBlockEndsLine(domains);
      InsertKeepsLines(WithPortal(base, domains), ConsoleBlock(domains), KeyLine(router));
    } else {
      ConsoleLineStands(base, domains, router);
    }
  }

  lemma PortalLineStands(base: string, domains: Domains, router: string)
    requires PortalAdds(base, domains, router)
    ensures KeyLine(router) in Split(WithPortal(base, domains))
  {
    var k :| 0 <= k < 3 && router == Routers("portal", domains.portal)[k].name;
    RouterIsInserted(base, PORTAL_HEADING, "portal", domains.portal, k);
  }

  lemma ConsoleLineStands(base: string, domains: Domains, router: string)
    requires ConsoleAdds(base, domains, router)
    ensures KeyLine(router) in Split(Insert(WithPortal(base, domains), ConsoleBlock(domains)))
  {
    var k :| 0 <= k < 3 && router == Routers("console-domain", domains.console)[k].name;
    RouterIsInserted(WithPortal(base, domains), "", "console-domain", domains.console, k);
  }

  lemma ConsoleBlockEndsLine(domains: Domains)
    ensures EndsLine(ConsoleBlock(domains).text)
  {
    BodiesEndLines("console-domain", domains.console);
    TextEndsLine("", Routers("console-domain", domains.console));
  }
}

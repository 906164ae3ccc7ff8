/** The parts of a url, how they are printed and how they are read (src/dcl/url.cpp). The port of a
    scheme comes from a table of services, as getservbyname looks it up. */
module UrlParts {
  import opened Options
  import opened Strutils

  type Services = map<string, Port>
  type Port = x: int | 0 <= x < 0x1_0000
  type int32 = x: int | -0x8000_0000 <= x < 0x8000_0000

  datatype Authority = Authority(user: string, password: string, host: string, port: int32)

  datatype Resource = Resource(path: string, query: string, fragment: string, parameters: string)

  datatype Parts = Parts(scheme: string, authority: Authority, resource: Resource)

  function NoAuthority(): Authority {
    Authority("", "", "", 0)
  }

  function NoResource(): Resource {
    Resource("", "", "", "")
  }

  // A url without a value.
  function Fresh(): Parts {
    Parts("", NoAuthority(), NoResource())
  }

  // find(c): |s| if c does not occur.
  function Find(s: string, c: char): (p: nat)
    ensures p <= |s| && c !in s[..p] && (p < |s| ==> s[p] == c)
  {
    if s == "" || s[0] == c then 0 else 1 + Find(s[1..], c)
  }

  // The text before the first c, all of s if there is none.
  function Before(s: string, c: char): (t: string)
    ensures c !in t
  {
    s[..Find(s, c)]
  }

  // The text after the first c, if there is one.
  function After(s: string, c: char): (t: Option<string>)
    ensures t.Some? <==> c in s
  {
    FoundIffIn(s, c);
    if Find(s, c) == |s| then None else Some(s[Find(s, c) + 1..])
  }

  lemma FoundIffIn(s: string, c: char)
    ensures Find(s, c) < |s| <==> c in s
  {
    if Find(s, c) == |s| {
      assert s[..|s|] == s;
    }
  }

  // Printing.

  // A part and the delimiter before it, nothing if the part is empty.
  function Optional(c: char, s: string): string {
    if s == "" then "" else [c] + s
  }

  function ResourceText(r: Resource): string {
    ((r.path + Optional('?', r.query)) + Optional('#', r.fragment)) + Optional(';', r.parameters)
  }

  // The at sign follows a password only.
  function UserText(a: Authority): string {
    if a.user == "" then "" else if a.password == "" then a.user else (a.user + ([':'] + a.password)) + "@"
  }

  // The port is printed if the scheme is a service with another port.
  function PortText(services: Services, scheme: string, port: int32): string {
    if port > 0 && scheme in services && services[scheme] != port then ":" + ToString(port) else ""
  }

  function HostText(services: Services, scheme: string, a: Authority): string {
    if a.host == "" then "" else a.host + PortText(services, scheme, a.port)
  }

  function AuthorityText(services: Services, scheme: string, a: Authority): string {
    UserText(a) + HostText(services, scheme, a)
  }

  function SchemeText(scheme: string): string {
    if scheme == "" then "" else scheme + "://"
  }

  // url::str.
  function Text(services: Services, u: Parts): string {
    var t := SchemeText(u.scheme) + (AuthorityText(services, u.scheme, u.authority) + ResourceText(u.resource));
    if t == "" then "/" else t
  }

  // Reading.

  predicate HasScheme(t: string) {
    var p := Find(t, ':');
    p > 2 && |t| > p + 2 && t[p + 1] == '/' && t[p + 2] == '/'
  }

  function Rooted(t: string): string {
    if t == "" || t[0] != '/' then "/" + t else t
  }

  function OrElse(o: Option<string>, s: string): string {
    if o.Some? then o.value else s
  }

  // User and password are split off the host.
  function ReadUser(a: Authority): Authority {
    var rest := After(a.host, '@');
    if rest.None? then a
    else
      var user := Before(a.host, '@');
      Authority(Before(user, ':'), OrElse(After(user, ':'), a.password), rest.value, a.port)
  }

  function ReadPort(a: Authority): Authority {
    var rest := After(a.host, ':');
    a.(host := Before(a.host, ':'),
       port := if rest.None? || rest.value == "" then a.port else FromString(rest.value))
  }

  function DefaultPort(services: Services, scheme: string, port: int32): int32 {
    if scheme in services then services[scheme] else port
  }

  function ReadAuthority(services: Services, scheme: string, a: Authority, h: string): Authority {
    ReadPort(ReadUser(a.(host := h, port := DefaultPort(services, scheme, a.port))))
  }

  function ReadResource(r: Resource, t: string): Resource {
    var t1 := Before(t, ';');
    var t2 := Before(t1, '#');
    var t3 := Before(t2, '?');
    Resource(Rooted(t3), OrElse(After(t2, '?'), r.query), OrElse(After(t1, '#'), r.fragment),
             OrElse(After(t, ';'), r.parameters))
  }

  // url::parse: a part that the text does not have keeps its value.
  function Parsed(services: Services, u: Parts, text: string): Parts {
    if !HasScheme(text) then u.(scheme := "", resource := u.resource.(path := Rooted(text)))
    else
      var p := Find(text, ':');
      var scheme, t := text[..p], text[p + 3..];
      var h := Before(t, '/');
      if scheme == "file" then
        Parts(scheme, u.authority.(host := h), u.resource.(path := Rooted(t[|h|..])))
      else
        Parts(scheme, ReadAuthority(services, scheme, u.authority, h), ReadResource(u.resource, t[|h|..]))
  }

  // Which urls are read back.

  predicate CanonicalAuthority(services: Services, scheme: string, a: Authority) {
    && '/' !in a.user && ':' !in a.user && '@' !in a.user
    && '/' !in a.password && '@' !in a.password
    && '/' !in a.host && ':' !in a.host
    && (a.user == "" <==> a.password == "")
    && (a.user == "" ==> '@' !in a.host)
    && (a.port == DefaultPort(services, scheme, 0) || (a.host != "" && scheme in services && a.port > 0))
  }

  predicate StartsWithSlash(s: string) {
    s != "" && s[0] == '/'
  }

  predicate CanonicalResource(r: Resource) {
    && ';' !in r.path && '#' !in r.path && '?' !in r.path
    && ';' !in r.query && '#' !in r.query && ';' !in r.fragment
  }

  predicate Canonical(services: Services, u: Parts) {
    && StartsWithSlash(u.resource.path)
    && if u.scheme == "" then
         u.authority == NoAuthority() && u.resource == NoResource().(path := u.resource.path)
         && !HasScheme(u.resource.path)
       else
         && ':' !in u.scheme && |u.scheme| > 2
         && if u.scheme == "file" then
              u.authority == NoAuthority().(host := u.authority.host) && '/' !in u.authority.host
              && u.resource == NoResource().(path := u.resource.path)
            else CanonicalAuthority(services, u.scheme, u.authority) && CanonicalResource(u.resource)
  }

  // Cutting.

  lemma {:induction false} FindExact(a: string, c: char, b: string)
    requires c !in a && (b == "" || b[0] == c)
    ensures Find(a + b, c) == |a|
  {
    if a == "" {
      assert a + b == b;
    } else {
      FindExact(a[1..], c, b);
      assert (a + b)[1..] == a[1..] + b;
    }
  }

  lemma CutExact(a: string, c: char, b: string)
    requires c !in a
    ensures Before(a, c) == a && After(a, c) == None
    ensures Before(a + ([c] + b), c) == a && After(a + ([c] + b), c) == Some(b)
  {
    FindExact(a, c, "");
    assert a + "" == a;
    FindExact(a, c, [c] + b);
    assert (a + ([c] + b))[..|a|] == a && (a + ([c] + b))[|a| + 1..] == b;
  }

  lemma CutOptional(a: string, c: char, s: string)
    requires c !in a
    ensures Before(a + Optional(c, s), c) == a && OrElse(After(a + Optional(c, s), c), "") == s
  {
    CutExact(a, c, s);
    assert a + "" == a;
  }

  // Resources.

  lemma ResourceShape(r: Resource, t: string)
    ensures CanonicalResource(ReadResource(r, t)) || r != NoResource()
    ensures StartsWithSlash(ReadResource(r, t).path)
  {}

  lemma ResourceReadBack(r: Resource)
    requires StartsWithSlash(r.path)
    ensures ReadResource(NoResource(), ResourceText(r)) == r <==> CanonicalResource(r)
  {
    ResourceShape(NoResource(), ResourceText(r));
    if CanonicalResource(r) {
      CutOptional((r.path + Optional('?', r.query)) + Optional('#', r.fragment), ';', r.parameters);
      CutOptional(r.path + Optional('?', r.query), '#', r.fragment);
      CutOptional(r.path, '?', r.query);
    }
  }

  // A part that a text does not have keeps the value of an earlier parse.
  lemma ResourceKept(r: Resource, t: string)
    requires ';' !in t && '#' !in t && '?' !in t
    ensures ReadResource(r, t) == r.(path := Rooted(t))
  {
    CutExact(t, ';', "");
    CutExact(t, '#', "");
    CutExact(t, '?', "");
  }

  // Authorities.

  lemma PortReadBack(services: Services, scheme: string, a: Authority)
    requires ':' !in a.host
    ensures
      var d := DefaultPort(services, scheme, 0);
      var b := ReadPort(a.(host := HostText(services, scheme, a), port := d));
      && b.user == a.user && b.password == a.password && b.host == a.host
      && (b.port == a.port <==> a.port == d || (a.host != "" && scheme in services && a.port > 0))
  {
    hide FromString, ToString;
    CutExact(a.host, ':', ToString(a.port));
    assert a.host + "" == a.host;
    if a.port > 0 {
      DecimalRoundTrip(a.port);
      PrintedIsNotEmpty(a.port);
    }
  }

  lemma PrintedIsNotEmpty(n: int)
    ensures ToString(n) != "" && '@' !in ToString(n) && '/' !in ToString(n)
  {}

  predicate AuthorityShape(a: Authority) {
    && '/' !in a.user && ':' !in a.user && '@' !in a.user
    && '/' !in a.password && '@' !in a.password && '/' !in a.host && ':' !in a.host
  }

  lemma ReadAuthorityShape(services: Services, scheme: string, h: string)
    requires '/' !in h
    ensures AuthorityShape(ReadAuthority(services, scheme, NoAuthority(), h))
  {}

  // An at sign that the user text does not account for cuts the host short.
  lemma HostCutShort(a: Authority, x: string, port: string, host: string)
    requires '@' in host && '@' !in x && (port == "" || port[0] == ':')
    ensures |ReadPort(ReadUser(a.(host := x + (host + port)))).host| < |host|
  {
    hide ReadUser;
    var k := Find(host, '@');
    FoundIffIn(host, '@');
    var rest := host[k + 1..] + port;
    SplitAt(x, host, k, port);
    CutExact(x + host[..k], '@', rest);
    FindAtMost(host[k + 1..], ':', port);
    HostRead(a.(host := x + (host + port)), rest);
  }

  lemma SplitAt(x: string, host: string, k: nat, port: string)
    requires k < |host|
    ensures x + (host + port) == (x + host[..k]) + ([host[k]] + (host[k + 1..] + port))
  {
    assert host == host[..k] + ([host[k]] + host[k + 1..]);
  }

  lemma HostRead(a: Authority, rest: string)
    requires After(a.host, '@') == Some(rest)
    ensures ReadUser(a).host == rest
  {}

  lemma {:induction false} FindAtMost(a: string, c: char, b: string)
    requires b == "" || b[0] == c
    ensures Find(a + b, c) <= |a|
  {
    if a == "" {
      assert a + b == b;
    } else {
      FindAtMost(a[1..], c, b);
      assert (a + b)[1..] == a[1..] + b;
    }
  }

  lemma NoUserRead(a: Authority)
    requires '@' !in a.host
    ensures ReadUser(a) == a
  {
    CutExact(a.host, '@', "");
  }

  // A user with a password is split off again.
  lemma UserRead(a: Authority, user: string, password: string, rest: string)
    requires ':' !in user && '@' !in user && '@' !in password
    requires a.host == ((user + ([':'] + password)) + "@") + rest
    ensures ReadUser(a) == Authority(user, password, rest, a.port)
  {
    var x := user + ([':'] + password);
    CutExact(x, '@', rest);
    assert (x + "@") + rest == x + (['@'] + rest);
    CutExact(user, ':', password);
  }

  lemma HostTextParts(services: Services, scheme: string, a: Authority) returns (port: string)
    ensures HostText(services, scheme, a) == a.host + port && (port == "" || port[0] == ':')
    ensures '@' !in port && '/' !in port
  {
    port := if a.host == "" then "" else PortText(services, scheme, a.port);
    PrintedIsNotEmpty(a.port);
  }

  lemma AuthorityReadBack(services: Services, scheme: string, a: Authority)
    requires AuthorityShape(a)
    ensures ReadAuthority(services, scheme, NoAuthority(), AuthorityText(services, scheme, a)) == a
       <==> CanonicalAuthority(services, scheme, a)
  {
    hide PortText, ReadUser, ReadPort;
    var port := HostTextParts(services, scheme, a);
    var text := HostText(services, scheme, a);
    var b := Authority("", "", UserText(a) + text, DefaultPort(services, scheme, 0));
    if a.user != "" && a.password != "" {
      UserRead(b, a.user, a.password, text);
      PortReadBack(services, scheme, a);
    } else if '@' in a.host {
      assert UserText(a) == a.user;
      HostCutShort(b, a.user, port, a.host);
    } else {
      assert UserText(a) == a.user;
      NoUserRead(b);
      if a.user == "" {
        assert "" + text == text;
        PortReadBack(services, scheme, Authority("", "", a.host, a.port));
      }
      PortKeepsUser(b);
    }
  }

  lemma PortKeepsUser(a: Authority)
    ensures ReadPort(a).user == a.user && ReadPort(a).password == a.password
  {}

  // Whole urls.

  lemma SchemeReadBack(scheme: string, rest: string)
    requires ':' !in scheme && |scheme| > 2
    ensures
      var t := SchemeText(scheme) + rest;
      HasScheme(t) && Find(t, ':') == |scheme| && t[..|scheme|] == scheme && t[|scheme| + 3..] == rest
  {
    var t := SchemeText(scheme) + rest;
    assert t == scheme + (":" + ("//" + rest));
    FindExact(scheme, ':', ":" + ("//" + rest));
  }

  lemma NoSlashInAuthority(services: Services, scheme: string, a: Authority)
    requires '/' !in a.user && '/' !in a.password && '/' !in a.host
    ensures '/' !in AuthorityText(services, scheme, a)
  {
    var port := HostTextParts(services, scheme, a);
  }

  // What parsing a fresh url can yield.
  lemma ParsedShape(services: Services, text: string)
    ensures
      var u := Parsed(services, Fresh(), text);
      && StartsWithSlash(u.resource.path)
      && (u.scheme != "" ==> ':' !in u.scheme && |u.scheme| > 2)
      && (u.scheme == "" <==> !HasScheme(text))
      && (u.scheme != "" ==> '/' !in u.authority.user && '/' !in u.authority.password && '/' !in u.authority.host)
      && (u.scheme !in ["", "file"] ==> AuthorityShape(u.authority))
  {
    hide ReadAuthority, ReadResource;
    if HasScheme(text) {
      var p := Find(text, ':');
      var t := text[p + 3..];
      var h := Before(t, '/');
      ReadAuthorityShape(services, text[..p], h);
      ResourceShape(NoResource(), t[|h|..]);
    }
  }

  // With a scheme, host and path are cut apart where they were joined.
  lemma ParsedText(services: Services, u: Parts)
    requires ':' !in u.scheme && |u.scheme| > 2 && StartsWithSlash(u.resource.path)
    requires '/' !in u.authority.user && '/' !in u.authority.password && '/' !in u.authority.host
    ensures
      var h := AuthorityText(services, u.scheme, u.authority);
      var t := ResourceText(u.resource);
      && StartsWithSlash(t)
      && Parsed(services, Fresh(), Text(services, u))
      == if u.scheme == "file" then
           Parts("file", NoAuthority().(host := h), NoResource().(path := t))
         else
           Parts(u.scheme, ReadAuthority(services, u.scheme, NoAuthority(), h), ReadResource(NoResource(), t))
  {
    hide AuthorityText, ReadAuthority, ReadResource, HasScheme, SchemeText;
    var h := AuthorityText(services, u.scheme, u.authority);
    var t := ResourceText(u.resource);
    SchemeReadBack(u.scheme, h + t);
    NoSlashInAuthority(services, u.scheme, u.authority);
    FindExact(h, '/', t);
    assert (h + t)[..|h|] == h && (h + t)[|h|..] == t;
  }

  lemma FileReadBack(services: Services, u: Parts)
    requires u.scheme == "file" && StartsWithSlash(u.resource.path)
    requires '/' !in u.authority.user && '/' !in u.authority.password && '/' !in u.authority.host
    ensures Parsed(services, Fresh(), Text(services, u)) == u <==> Canonical(services, u)
  {
    hide Parsed, Text, Find, ReadAuthority, ReadResource;
    ParsedText(services, u);
    var p := u.resource.path;
    if u.authority == NoAuthority().(host := u.authority.host) {
      assert "" + u.authority.host == u.authority.host;
      assert u.authority.host + "" == u.authority.host;
    }
    if u.resource == NoResource().(path := p) {
      assert ((p + "") + "") + "" == p;
    }
  }

  // Reading back: a printed url, parsed into a fresh one, comes back exactly if it is canonical.
  lemma RoundTrip(services: Services, u: Parts)
    ensures Parsed(services, Fresh(), Text(services, u)) == u <==> Canonical(services, u)
  {
    hide ReadAuthority, ReadResource, AuthorityText, CanonicalAuthority, CanonicalResource, HasScheme, Find;
    var text := Text(services, u);
    ParsedShape(services, text);
    CanonicalHasNoSlash(services, u);
    if u.scheme == "" {
      if u.authority == NoAuthority() && u.resource == NoResource().(path := u.resource.path)
        && StartsWithSlash(u.resource.path) {
        PathOnly(services, u);
      }
    } else if ':' !in u.scheme && |u.scheme| > 2 && StartsWithSlash(u.resource.path)
      && '/' !in u.authority.user && '/' !in u.authority.password && '/' !in u.authority.host {
      if u.scheme == "file" {
        FileReadBack(services, u);
      } else {
        ParsedText(services, u);
        ResourceReadBack(u.resource);
        CanonicalAuthorityShape(services, u.scheme, u.authority);
        if AuthorityShape(u.authority) {
          AuthorityReadBack(services, u.scheme, u.authority);
        }
      }
    }
  }

  lemma CanonicalAuthorityShape(services: Services, scheme: string, a: Authority)
    ensures CanonicalAuthority(services, scheme, a) ==> AuthorityShape(a)
  {}

  lemma CanonicalHasNoSlash(services: Services, u: Parts)
    ensures Canonical(services, u) ==>
              '/' !in u.authority.user && '/' !in u.authority.password && '/' !in u.authority.host
  {}

  lemma PathOnly(services: Services, u: Parts)
    requires u == Parts("", NoAuthority(), NoResource().(path := u.resource.path))
    requires StartsWithSlash(u.resource.path)
    ensures Text(services, u) == u.resource.path
  {
    var p := u.resource.path;
    assert ((p + "") + "") + "" == p && "" + p == p;
    assert "" + "" == "";
  }

  // Parsing into a url that already has a value.

  // The text supplies user, password and port, or a has none.
  predicate AuthorityFromText(services: Services, scheme: string, a: Authority, h: string) {
    && (a.user == "" || '@' in h)
    && (a.password == "" || ('@' in h && ':' in Before(h, '@')))
    && (a.port == 0 || scheme in services || PortDigits(h) != "")
  }

  // What the text has after the colon of the host.
  function PortDigits(h: string): string {
    OrElse(After(OrElse(After(h, '@'), h), ':'), "")
  }

  // The text supplies query, fragment and parameters, or r has none.
  predicate ResourceFromText(r: Resource, t: string) {
    && (r.parameters == "" || ';' in t)
    && (r.fragment == "" || '#' in Before(t, ';'))
    && (r.query == "" || '?' in Before(Before(t, ';'), '#'))
  }

  predicate FromText(services: Services, u: Parts, text: string) {
    if !HasScheme(text) then
      u.authority == NoAuthority() && u.resource.(path := "") == NoResource()
    else
      var p := Find(text, ':');
      var scheme, t := text[..p], text[p + 3..];
      var h := Before(t, '/');
      if scheme == "file" then
        u.authority.(host := "") == NoAuthority() && u.resource.(path := "") == NoResource()
      else AuthorityFromText(services, scheme, u.authority, h) && ResourceFromText(u.resource, t[|h|..])
  }

  lemma AuthorityParsedAlone(services: Services, scheme: string, a: Authority, h: string)
    ensures ReadAuthority(services, scheme, a, h) == ReadAuthority(services, scheme, NoAuthority(), h)
       <==> AuthorityFromText(services, scheme, a, h)
  {
    hide FromString, Find;
  }

  lemma ResourceParsedAlone(r: Resource, t: string)
    ensures ReadResource(r, t) == ReadResource(NoResource(), t) <==> ResourceFromText(r, t)
  {
    hide Find;
  }

  // The outcome of a parse depends on the text alone exactly when every part that the text does not
  // supply is empty in the url that is parsed into.
  lemma ParsedAlone(services: Services, u: Parts, text: string)
    ensures Parsed(services, u, text) == Parsed(services, Fresh(), text) <==> FromText(services, u, text)
  {
    hide ReadAuthority, ReadResource, AuthorityFromText, ResourceFromText;
    if HasScheme(text) {
      var p := Find(text, ':');
      var t := text[p + 3..];
      var h := Before(t, '/');
      AuthorityParsedAlone(services, text[..p], u.authority, h);
      ResourceParsedAlone(u.resource, t[|h|..]);
    }
  }

  // A second parse that keeps the host and the query of the first.

  function FirstUrl(): Parts {
    Parts("abc", Authority("", "", "h", 0), Resource("/", "q", "", ""))
  }

  lemma FirstUrlText()
    ensures Text(map[], FirstUrl()) == "abc://h/?q"
  {
    assert ResourceText(FirstUrl().resource) == "/?q";
    assert AuthorityText(map[], "abc", FirstUrl().authority) == "h";
  }

  lemma FirstUrlIsCanonical()
    ensures Canonical(map[], FirstUrl())
  {}

  lemma SecondParse(u: Parts)
    ensures Parsed(map[], u, "/p") == u.(scheme := "", resource := u.resource.(path := "/p"))
  {
    assert Find("/p", ':') == 2;
  }

  lemma SecondParseKeeps()
    ensures
      var first := Parsed(map[], Fresh(), "abc://h/?q");
      var second := Parsed(map[], first, "/p");
      && first == FirstUrl() && second.authority.host == "h" && second.resource.query == "q"
      && second != Parsed(map[], Fresh(), "/p")
  {
    hide Parsed, Text, Canonical;
    FirstUrlText();
    FirstUrlIsCanonical();
    RoundTrip(map[], FirstUrl());
    SecondParse(FirstUrl());
    SecondParse(Fresh());
  }

  // A user without a password is printed without the at sign, and read back as part of the host.

  function UserOnly(): Parts {
    Parts("abc", Authority("joe", "", "h", 0), Resource("/", "", "", ""))
  }

  lemma UserOnlyText()
    ensures Text(map[], UserOnly()) == "abc://joeh/"
  {
    assert ResourceText(UserOnly().resource) == "/";
    assert AuthorityText(map[], "abc", UserOnly().authority) == "joeh";
  }

  lemma JoinedHostIsCanonical()
    ensures
      var u := Parts("abc", Authority("", "", "joeh", 0), Resource("/", "", "", ""));
      Canonical(map[], u) && Text(map[], u) == "abc://joeh/"
  {
    assert ResourceText(Resource("/", "", "", "")) == "/";
    assert AuthorityText(map[], "abc", Authority("", "", "joeh", 0)) == "joeh";
  }

  lemma UserOnlyIsNotReadBack()
    ensures !Canonical(map[], UserOnly()) && Text(map[], UserOnly()) == "abc://joeh/"
    ensures Parsed(map[], Fresh(), "abc://joeh/") == Parts("abc", Authority("", "", "joeh", 0), Resource("/", "", "", ""))
  {
    hide Parsed, Text;
    UserOnlyText();
    JoinedHostIsCanonical();
    RoundTrip(map[], Parts("abc", Authority("", "", "joeh", 0), Resource("/", "", "", "")));
  }
}

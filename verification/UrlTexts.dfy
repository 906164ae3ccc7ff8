/** What printed urls look like and how texts are taken apart, character by character (src/dcl/url.cpp). */
module UrlTexts {
  import opened Options
  import opened Sequences
  import opened Strutils
  import opened UrlParts

  function WithPort(u: Parts, port: int32): Parts {
    u.(authority := u.authority.(port := port))
  }

  function WithHost(u: Parts, host: string): Parts {
    u.(authority := u.authority.(host := host))
  }

  // The default port of a scheme leaves no trace in the text, nor does any port of a scheme that is
  // not a service or of a url without a host.
  lemma DefaultPortIsSilent(services: Services, u: Parts)
    ensures u.scheme in services ==> Text(services, WithPort(u, services[u.scheme])) == Text(services, WithPort(u, 0))
    ensures u.scheme !in services || u.authority.host == "" ==> Text(services, u) == Text(services, WithPort(u, 0))
  {
    hide SchemeText, ResourceText;
  }

  // Any other positive port stands behind the host: a colon and its decimal digits.
  lemma OtherPortIsPrinted(services: Services, u: Parts)
    requires u.scheme in services && services[u.scheme] != u.authority.port && u.authority.port > 0
    requires u.authority.host != ""
    ensures Text(services, u) == Text(services, WithPort(WithHost(u, u.authority.host + ":" + ToString(u.authority.port)), 0))
  {
    hide SchemeText, ResourceText, ToString;
    var host := u.authority.host + ":" + ToString(u.authority.port);
    assert u.authority.host + (":" + ToString(u.authority.port)) == host && host + "" == host;
  }

  lemma ResourceLayout(r: Resource)
    requires r.query != "" && r.fragment != "" && r.parameters != ""
    ensures ResourceText(r) == r.path + "?" + r.query + "#" + r.fragment + ";" + r.parameters
  {
    Associated(r.path, "?", r.query);
    Associated(r.path + "?" + r.query, "#", r.fragment);
    Associated(r.path + "?" + r.query + "#" + r.fragment, ";", r.parameters);
  }

  lemma UserLayout(a: Authority)
    requires a.user != "" && a.password != ""
    ensures UserText(a) == a.user + ":" + a.password + "@"
  {
    Associated(a.user, ":", a.password);
  }

  lemma HostLayout(services: Services, scheme: string, a: Authority)
    requires a.host != "" && scheme in services && services[scheme] != a.port && a.port > 0
    ensures HostText(services, scheme, a) == a.host + ":" + ToString(a.port)
  {
    hide ToString;
    Associated(a.host, ":", ToString(a.port));
  }

  // The whole layout.
  lemma FullLayout(services: Services, u: Parts)
    requires u.scheme in services && services[u.scheme] != u.authority.port && u.authority.port > 0
    requires u.scheme != "" && u.authority.user != "" && u.authority.password != "" && u.authority.host != ""
    requires u.resource.query != "" && u.resource.fragment != "" && u.resource.parameters != ""
    ensures
      var a, r := u.authority, u.resource;
      Text(services, u)
      == (u.scheme + "://")
         + (((a.user + ":" + a.password + "@") + (a.host + ":" + ToString(a.port)))
            + (r.path + "?" + r.query + "#" + r.fragment + ";" + r.parameters))
  {
    hide ToString, ResourceText, UserText, HostText;
    ResourceLayout(u.resource);
    UserLayout(u.authority);
    HostLayout(services, u.scheme, u.authority);
  }

  // A scheme has three letters at least.
  lemma SchemeLength(services: Services, u: Parts, scheme: string, rest: string)
    requires ':' !in scheme
    ensures Parsed(services, u, scheme + "://" + rest).scheme == if |scheme| > 2 then scheme else ""
  {
    hide ReadAuthority, ReadResource;
    var t := scheme + "://" + rest;
    assert t == scheme + (":" + ("//" + rest));
    FindExact(scheme, ':', ":" + ("//" + rest));
    assert t[..|scheme|] == scheme;
  }

  // Two slashes follow its colon.
  lemma SchemeSlashes(services: Services, u: Parts, scheme: string, rest: string)
    requires ':' !in scheme && (|rest| < 2 || rest[0] != '/' || rest[1] != '/')
    ensures Parsed(services, u, scheme + ":" + rest).scheme == ""
  {
    var s := scheme + ":" + rest;
    assert s == scheme + (":" + rest);
    FindExact(scheme, ':', ":" + rest);
    assert s[|scheme| + 1..] == rest;
  }

  // A text without a scheme is a path, and becomes one from the root.
  lemma PathFromRoot(services: Services, u: Parts, t: string)
    requires ':' !in t
    ensures Parsed(services, u, t).resource.path == if t != "" && t[0] == '/' then t else "/" + t
  {
    FoundIffIn(t, ':');
  }

  // A text of scheme, authority and resource is cut at its first single slash; without one the path
  // is the root.
  lemma AuthorityAndPath(services: Services, u: Parts, scheme: string, h: string, t: string)
    requires ':' !in scheme && |scheme| > 2 && scheme != "file" && '/' !in h && (t == "" || t[0] == '/')
    ensures
      Parsed(services, u, scheme + "://" + h + t)
      == Parts(scheme, ReadAuthority(services, scheme, u.authority, h), ReadResource(u.resource, t))
  {
    hide ReadAuthority, ReadResource, HasScheme;
    assert scheme + "://" + h + t == SchemeText(scheme) + (h + t);
    SchemeReadBack(scheme, h + t);
    FindExact(h, '/', t);
    assert (h + t)[..|h|] == h && (h + t)[|h|..] == t;
  }

  // Of a file url only the host and the path are read: nothing is split off either.
  lemma FileUrl(services: Services, u: Parts, h: string, t: string)
    requires '/' !in h && (t == "" || t[0] == '/')
    ensures Parsed(services, u, "file://" + h + t)
         == Parts("file", u.authority.(host := h), u.resource.(path := if t == "" then "/" else t))
  {
    hide ReadAuthority, ReadResource, HasScheme;
    assert "file://" + h + t == SchemeText("file") + (h + t);
    SchemeReadBack("file", h + t);
    FindExact(h, '/', t);
    assert (h + t)[..|h|] == h && (h + t)[|h|..] == t;
  }

  // A user without a password is split off before the at sign, and an earlier password stays; an
  // empty port leaves the port of the service, or the earlier one.
  lemma UserWithoutPassword(services: Services, scheme: string, a: Authority, user: string, host: string)
    requires '@' !in user && ':' !in user && ':' !in host
    ensures ReadAuthority(services, scheme, a, user + "@" + host + ":")
         == Authority(user, a.password, host, DefaultPort(services, scheme, a.port))
  {
    var h := user + "@" + host + ":";
    var b := a.(host := h, port := DefaultPort(services, scheme, a.port));
    assert h == user + (['@'] + (host + ":"));
    CutExact(user, '@', host + ":");
    CutExact(user, ':', "");
    assert ReadUser(b) == Authority(user, a.password, host + ":", b.port);
    assert host + ":" == host + ([':'] + "");
    CutExact(host, ':', "");
  }

  // Parameters are cut off first, then the fragment, then the query.
  lemma ResourceCut(r: Resource, path: string, query: string, fragment: string, parameters: string)
    requires StartsWithSlash(path) && ';' !in path && '#' !in path && '?' !in path
    requires ';' !in query && '#' !in query && ';' !in fragment
    ensures ReadResource(r, path + "?" + query + "#" + fragment + ";" + parameters)
         == Resource(path, query, fragment, parameters)
  {
    var t2 := path + (['?'] + query);
    var t1 := t2 + (['#'] + fragment);
    assert path + "?" + query + "#" + fragment + ";" + parameters == t1 + ([';'] + parameters);
    CutExact(t1, ';', parameters);
    CutExact(t2, '#', fragment);
    CutExact(path, '?', query);
  }
}

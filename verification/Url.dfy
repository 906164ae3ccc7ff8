/** class url of src/dcl/url.cpp. */
module Url {
  import opened Options
  import opened Sequences
  import opened Strutils
  import opened UrlParts
  import UrlPath

  class Url {
    const services: Services
    var scheme: string
    var user: string
    var password: string
    var host: string
    var port: int32
    var path: string
    var query: string
    var fragment: string
    var parameters: string

    function Value(): Parts
      reads this
    {
      Parts(scheme, Authority(user, password, host, port), Resource(path, query, fragment, parameters))
    }

    // An empty url, or one parsed from a text.
    constructor (services: Services, value: Option<string>)
      ensures this.services == services
      ensures Value() == if value.Some? then Parsed(services, Fresh(), value.value) else Fresh()
    {
      this.services := services;
      scheme, user, password, host, port := "", "", "", "", 0;
      path, query, fragment, parameters := "", "", "", "";
      new;
      if value.Some? {
        Parse(value.value);
      }
    }

    // User name and password, in front of the host.
    method ParseUser()
      modifies `user, `password, `host
      ensures Value().authority == ReadUser(old(Value().authority))
    {
      var pos := Find(host, '@');
      if pos < |host| {
        user := host[..pos];
        host := host[pos + 1..];
        pos := Find(user, ':');
        if pos < |user| {
          var s := user[..pos];
          user := user[pos + 1..];
          password := user;
          user := s;
        } else {
          assert user[..pos] == user;
        }
      }
    }

    // The port number, behind the host.
    method ParsePort()
      modifies `host, `port
      ensures Value().authority == ReadPort(old(Value().authority))
    {
      var pos := Find(host, ':');
      if pos < |host| {
        var s := host[..pos];
        host := host[pos + 1..];
        if |host| > 0 {
          port := FromString(host);
        }
        host := s;
      } else {
        assert host[..pos] == host;
      }
    }

    // Parameters, fragment and query are cut off the text, which ends up as the path.
    method ParseResource(text: string) returns (t: string)
      modifies `query, `fragment, `parameters
      ensures Value().resource.(path := Rooted(t)) == ReadResource(old(Value().resource), text)
    {
      hide Find, Before, After, Rooted;
      t := text;
      FindFits(t, ';');
      var pos := Find(t, ';');
      if pos < |t| {
        parameters := t[pos + 1..];
        t := t[..pos];
      }
      FindFits(t, '#');
      pos := Find(t, '#');
      if pos < |t| {
        fragment := t[pos + 1..];
        t := t[..pos];
      }
      FindFits(t, '?');
      pos := Find(t, '?');
      if pos < |t| {
        query := t[pos + 1..];
        t := t[..pos];
      }
    }

    // url::parse.
    method Parse(value: string)
      modifies this
      ensures Value() == Parsed(services, old(Value()), value)
    {
      hide Find, Before, ReadUser, ReadPort, ReadResource, Rooted;
      var t := value;
      var pos := Find(t, ':');
      if HasScheme(t) {
        SchemeFits(t);
        SchemeIsNotEmpty(t);
        scheme := t[..pos];
        t := t[pos + 3..];
      } else {
        scheme := "";
      }
      if scheme != "" {
        pos := Find(t, '/');
        FindFits(t, '/');
        if pos == |t| {
          host := t;
          t := "";
        } else {
          host := t[..pos];
          t := t[pos..];
        }
      }
      if scheme != "" && scheme != "file" {
        if scheme in services {
          port := services[scheme];
        }
        ParseUser();
        ParsePort();
        t := ParseResource(t);
      }
      path := Rooted(t);
    }

    // url::get_full_path.
    method GetFullPath() returns (rslt: string)
      ensures rslt == ResourceText(Value().resource)
    {
      rslt := "";
      if path != "" {
        rslt := rslt + path;
      }
      if query != "" {
        rslt := rslt + ("?" + query);
      }
      if fragment != "" {
        rslt := rslt + ("#" + fragment);
      }
      if parameters != "" {
        rslt := rslt + (";" + parameters);
      }
      Nothing(path);
      Nothing(path + Optional('?', query));
      Nothing((path + Optional('?', query)) + Optional('#', fragment));
    }

    // url::str.
    method Str() returns (rslt: string)
      ensures rslt == Text(services, Value())
    {
      hide ToString, ResourceText;
      ghost var a := Value().authority;
      ghost var begin := SchemeText(scheme);
      Nothing(begin);
      rslt := "";
      if scheme != "" {
        Nothing(scheme + "://");
        rslt := rslt + (scheme + "://");
      }
      if user != "" {
        rslt := rslt + user;
        if password != "" {
          Appended(begin, user, password);
          rslt := rslt + (":" + password + "@");
        }
      }
      ghost var middle := begin + UserText(a);
      assert rslt == middle;
      Nothing(middle);
      if host != "" {
        rslt := rslt + host;
        Nothing(rslt);
        Nothing(host);
        if port > 0 {
          if scheme in services {
            var servicePort := services[scheme];
            if servicePort != port {
              Associated(middle, host, ":" + ToString(port));
              rslt := rslt + (":" + ToString(port));
            }
          }
        }
      }
      ghost var h := HostText(services, scheme, a);
      assert rslt == middle + h;
      var fullPath := GetFullPath();
      Associated(begin, UserText(a), h);
      Associated(begin, UserText(a) + h, fullPath);
      rslt := rslt + fullPath;
      if rslt == "" {
        rslt := rslt + "/";
      }
    }

    // url::normalize: the tokens from the last to the first; skip counts the segments to leave out.
    method Normalize(basePath: string)
      modifies `path
      ensures path == UrlPath.Normalized(basePath, old(path))
    {
      hide UrlPath.PathText, UrlPath.Resolved, UrlPath.Skipping, UrlPath.Step, Tokens;
      if |path| > 0 && (path[0] == '/' || path[0] == '\\') {
        path := path[1..];
      }
      var t := basePath + path;
      var v := Tokenize(t, "/");
      var i := |v|;
      path := "";
      var skip := 0;
      UrlPath.ScanBegins(v);
      while i != 0
        invariant 0 <= i <= |v| && skip >= 0
        invariant UrlPath.Left(v, i, skip, path)
      {
        var token := v[i - 1];
        UrlPath.ScanStep(v, i, skip, path);
        if token == ".." {
          skip := skip + 1;
        } else if token == "." {
        } else if token == "" {
          return;
        } else {
          if skip > 0 {
            skip := skip - 1;
          } else {
            path := "/" + token + path;
          }
        }
        i := i - 1;
      }
      UrlPath.ScanEnds(v, skip, path);
    }
  }

  lemma Nothing(s: string)
    ensures s + "" == s && "" + s == s
  {}

  lemma SchemeFits(t: string)
    requires HasScheme(t)
    ensures Find(t, ':') + 3 <= |t|
  {}

  lemma SchemeIsNotEmpty(t: string)
    requires HasScheme(t)
    ensures t[..Find(t, ':')] != ""
  {}

  lemma FindFits(s: string, c: char)
    ensures Find(s, c) <= |s| && Before(s, c) == s[..Find(s, c)]
    ensures s[|Before(s, c)|..] == s[Find(s, c)..]
    ensures Find(s, c) == |s| ==> Before(s, c) == s && s[Find(s, c)..] == ""
    ensures After(s, c) == if Find(s, c) == |s| then None else Some(s[Find(s, c) + 1..])
  {}

  // The user text, appended piece by piece.
  lemma Appended(a: string, user: string, password: string)
    ensures (a + user) + (":" + password + "@") == a + ((user + ([':'] + password)) + "@")
  {
    assert user + (":" + password + "@") == (user + ([':'] + password)) + "@";
  }
}

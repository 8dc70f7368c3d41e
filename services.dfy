/**
 * format_user_service: pick the display template of a service type (the two
 * built-in types first, then the challenge's custom ones) and fill in its
 * `{name}` placeholders from keyword arguments, in keyword order.
 */
module Services {
  import opened Wrappers
  import opened PyStrings
  import opened Errors

  /** A service type with its `user_display` template. */
  datatype ServiceType = ServiceType(name: string, display: string)

  /** One keyword argument `name=value`, in the order the caller passed it. */
  datatype Keyword = Keyword(name: string, value: string)

  /** The two service types every challenge knows (lines 315-316). */
  const BuiltinTypes: seq<ServiceType> :=
    [ServiceType("website", "{url}"), ServiceType("tcp", "nc {host} {port}")]

  /** The template of the first type called `name` (line 318 with `type_candidate[0]`). */
  function FindType(types: seq<ServiceType>, name: string): (r: Option<string>)
    decreases |types|
  {
    if types == [] then None
    else if types[0].name == name then Some(types[0].display)
    else FindType(types[1..], name)
  }

  /** FindType finds nothing exactly when no type has the name, and otherwise the first one that has it. */
  lemma {:induction false} FindTypeFirst(types: seq<ServiceType>, name: string)
    ensures var r := FindType(types, name);
      && (r.None? <==> forall i :: 0 <= i < |types| ==> types[i].name != name)
      && (r.Some? ==> exists i :: 0 <= i < |types| && types[i].name == name && types[i].display == r.value
                        && forall j :: 0 <= j < i ==> types[j].name != name)
    decreases |types|
  {
    if types != [] && types[0].name != name {
      FindTypeFirst(types[1..], name);
      assert forall i :: 1 <= i < |types| ==> types[1..][i - 1] == types[i];
      var r := FindType(types, name);
      if r.Some? {
        var i :| 0 <= i < |types[1..]| && types[1..][i].name == name && types[1..][i].display == r.value
                 && forall j :: 0 <= j < i ==> types[1..][j].name != name;
        assert types[i + 1].name == name && types[i + 1].display == r.value;
      }
    }
  }

  /** `"{" + name + "}"` */
  function Placeholder(name: string): (r: string)
    ensures r != "" && r[0] == '{'
  {
    "{" + name + "}"
  }

  /** The loop at lines 324-325: each keyword in turn replaces every one of its placeholders. */
  function Substitute(template: string, kwargs: seq<Keyword>): string
    decreases |kwargs|
  {
    if kwargs == [] then template
    else Substitute(ReplaceAll(template, Placeholder(kwargs[0].name), kwargs[0].value), kwargs[1..])
  }

  /** format_user_service(config, service_type, **kwargs), with `custom_service_types` as `custom`. */
  function FormatUserService(custom: seq<ServiceType>, serviceType: string, kwargs: seq<Keyword>): (r: Result<string, Error>)
  {
    match FindType(BuiltinTypes + custom, serviceType)
    case None => Failure(UnknownServiceType(serviceType))
    case Some(t) => Success(Substitute(t, kwargs))
  }

  /** Formatting fails exactly for a type that is neither built in nor custom, and names that type. */
  lemma FormatUserServiceFails(custom: seq<ServiceType>, serviceType: string, kwargs: seq<Keyword>)
    ensures var r := FormatUserService(custom, serviceType, kwargs);
      && (r.Failure? <==>
            serviceType != "website" && serviceType != "tcp"
            && forall i :: 0 <= i < |custom| ==> custom[i].name != serviceType)
      && (r.Failure? ==> r.error == UnknownServiceType(serviceType))
  {
    var types := BuiltinTypes + custom;
    assert types[0].name == "website" && types[1].name == "tcp";
    assert forall i :: 0 <= i < |custom| ==> types[i + 2] == custom[i];
    FindTypeFirst(types, serviceType);
  }

  /** The keyword arguments the start phase passes for a service published on `port` (lines 580-582). */
  function LocalKeywords(port: int): seq<Keyword> {
    [Keyword("host", "127.0.0.1"),
     Keyword("port", IntToString(port)),
     Keyword("url", "http://127.0.0.1:" + IntToString(port))]
  }

  // ------------------------------------------------------------- properties

  /** A built-in type wins over a custom type of the same name: the custom list is never consulted. */
  lemma BuiltinTakesPrecedence(custom: seq<ServiceType>, kwargs: seq<Keyword>)
    ensures FormatUserService(custom, "website", kwargs) == Success(Substitute("{url}", kwargs))
    ensures FormatUserService(custom, "tcp", kwargs) == Success(Substitute("nc {host} {port}", kwargs))
  {
    var types := BuiltinTypes + custom;
    assert types[0] == ServiceType("website", "{url}");
    assert types[1] == ServiceType("tcp", "nc {host} {port}");
    assert types[1..][0] == types[1];
    assert FindType(types, "tcp") == FindType(types[1..], "tcp") == Some("nc {host} {port}");
  }

  /** Any other name resolves to the first custom type of that name. */
  lemma CustomTypeFirstMatch(custom: seq<ServiceType>, serviceType: string, kwargs: seq<Keyword>)
    requires serviceType != "website" && serviceType != "tcp"
    ensures FormatUserService(custom, serviceType, kwargs)
         == match FindType(custom, serviceType)
            case None => Failure(UnknownServiceType(serviceType))
            case Some(t) => Success(Substitute(t, kwargs))
  {
    var types := BuiltinTypes + custom;
    assert types[1..][1..] == custom;
    assert FindType(types, serviceType) == FindType(types[1..], serviceType) == FindType(custom, serviceType);
  }

  /** Keywords none of whose placeholders occur in the template leave it exactly as it is. */
  lemma {:induction false} SubstituteNoPlaceholders(template: string, kwargs: seq<Keyword>)
    requires forall i :: 0 <= i < |kwargs| ==> !Occurs(template, Placeholder(kwargs[i].name))
    ensures Substitute(template, kwargs) == template
    decreases |kwargs|
  {
    if kwargs != [] {
      ReplaceAllAbsent(template, Placeholder(kwargs[0].name), kwargs[0].value);
      assert forall i :: 1 <= i < |kwargs| ==> kwargs[1..][i - 1] == kwargs[i];
      SubstituteNoPlaceholders(template, kwargs[1..]);
    }
  }

  /** A string whose only `{` is its first character holds no placeholder it does not start with. */
  lemma OnlyLeadingBrace(s: string, pat: string)
    requires pat != "" && pat[0] == '{' && !StartsWith(s, pat)
    requires forall k :: 0 < k < |s| ==> s[k] != '{'
    ensures !Occurs(s, pat)
  {
    forall i | 0 <= i <= |s| ensures !OccursAt(s, pat, i) {
      if 0 < i && i + |pat| <= |s| {
        assert s[i..i + |pat|][0] == s[i];
      }
    }
  }

  /** `s` holds no `{`. */
  predicate NoBrace(s: string) {
    forall k :: 0 <= k < |s| ==> s[k] != '{'
  }

  /** A string without `{` holds no placeholder at all. */
  lemma NoBraceNoPlaceholder(s: string, name: string)
    requires NoBrace(s)
    ensures !Occurs(s, Placeholder(name))
  {
    NoFirstCharNoOccurrence(s, Placeholder(name));
  }

  /** Three keywords are three replacements, in keyword order. */
  lemma Substitute3(t: string, a: Keyword, b: Keyword, c: Keyword)
    ensures Substitute(t, [a, b, c])
         == ReplaceAll(ReplaceAll(ReplaceAll(t, Placeholder(a.name), a.value), Placeholder(b.name), b.value),
                       Placeholder(c.name), c.value)
  {
    var t1 := ReplaceAll(t, Placeholder(a.name), a.value);
    var t2 := ReplaceAll(t1, Placeholder(b.name), b.value);
    var t3 := ReplaceAll(t2, Placeholder(c.name), c.value);
    assert [a, b, c][1..] == [b, c];
    assert Substitute(t, [a, b, c]) == Substitute(t1, [b, c]);
    assert [b, c][1..] == [c];
    assert Substitute(t1, [b, c]) == Substitute(t2, [c]);
    assert [c][1..] == [];
    assert Substitute(t2, [c]) == Substitute(t3, []);
  }

  /**
   * The one occurrence of a pattern between a front part that cannot open it and
   * a rest that does not hold it is the only thing replaced.
   */
  lemma FillHole(front: string, pat: string, rest: string, rep: string)
    requires pat != ""
    requires forall k :: 0 <= k < |front| ==> front[k] != pat[0]
    requires !Occurs(rest, pat)
    ensures ReplaceAll(front + pat + rest, pat, rep) == front + rep + rest
  {
    assert front + pat + rest == front + (pat + rest);
    ReplaceAllSkip(front, pat + rest, pat, rep);
    ReplaceAllHead(pat, rest, rep);
    ReplaceAllAbsent(rest, pat, rep);
  }

  lemma HostNotInPortTail()
    ensures !Occurs(" {port}", Placeholder("host"))
  {
    var hp := Placeholder("host");
    var rest := " {port}";
    forall i | 0 <= i <= |rest| ensures !OccursAt(rest, hp, i) {
      if i + |hp| <= |rest| {
        assert i == 0 || i == 1;
        assert rest[i..i + |hp|][1] != hp[1];
      }
    }
  }

  /** `{host}` in the tcp template. */
  lemma TcpHostStep(host: string)
    ensures ReplaceAll("nc {host} {port}", Placeholder("host"), host) == "nc " + host + " {port}"
  {
    HostNotInPortTail();
    TcpTemplateParts();
    FillHole("nc ", Placeholder("host"), " {port}", host);
  }

  /** The tcp template split around its `{host}`. */
  lemma TcpTemplateParts()
    ensures "nc " + Placeholder("host") + " {port}" == "nc {host} {port}"
  {
    assert Placeholder("host") == "{host}";
    assert "nc " + "{host}" == "nc {host}";
    assert "nc {host}" + " {port}" == "nc {host} {port}";
  }

  /** `{port}` after `{host}` has been filled with a value free of `{`. */
  lemma TcpPortStep(host: string, port: string)
    requires NoBrace(host)
    ensures ReplaceAll("nc " + host + " {port}", Placeholder("port"), port) == "nc " + host + " " + port
  {
    var pp := Placeholder("port");
    var front := "nc " + host + " ";
    assert forall k :: 0 <= k < |front| ==> front[k] != '{' by {
      forall k | 0 <= k < |front| ensures front[k] != '{' {
        if 3 <= k < 3 + |host| { assert front[k] == host[k - 3]; }
      }
    }
    assert !Occurs("", pp);
    assert front + pp + "" == "nc " + host + " {port}";
    FillHole(front, pp, "", port);
  }

  /** `tcp` renders as `nc <host> <port>` when neither value holds a `{`. */
  lemma TcpDisplay(custom: seq<ServiceType>, host: string, port: string, url: string)
    requires NoBrace(host)
    requires NoBrace(port)
    ensures FormatUserService(custom, "tcp", [Keyword("host", host), Keyword("port", port), Keyword("url", url)])
         == Success("nc " + host + " " + port)
  {
    var kw := [Keyword("host", host), Keyword("port", port), Keyword("url", url)];
    BuiltinTakesPrecedence(custom, kw);
    Substitute3("nc {host} {port}", kw[0], kw[1], kw[2]);
    TcpHostStep(host);
    TcpPortStep(host, port);
    var s2 := "nc " + host + " " + port;
    assert forall k :: 0 <= k < |s2| ==> s2[k] != '{' by {
      forall k | 0 <= k < |s2| ensures s2[k] != '{' {
        if 3 <= k < 3 + |host| { assert s2[k] == host[k - 3]; }
        else if 4 + |host| <= k { assert s2[k] == port[k - 4 - |host|]; }
      }
    }
    NoBraceNoPlaceholder(s2, "url");
    ReplaceAllAbsent(s2, Placeholder("url"), url);
  }

  /** `website` renders as the url itself, whatever the url holds: `{url}` is replaced last. */
  lemma WebsiteDisplay(custom: seq<ServiceType>, host: string, port: string, url: string)
    ensures FormatUserService(custom, "website", [Keyword("host", host), Keyword("port", port), Keyword("url", url)])
         == Success(url)
  {
    var kw := [Keyword("host", host), Keyword("port", port), Keyword("url", url)];
    BuiltinTakesPrecedence(custom, kw);
    Substitute3("{url}", kw[0], kw[1], kw[2]);
    var hp, pp, up := Placeholder("host"), Placeholder("port"), Placeholder("url");
    UrlTemplateParts();
    ReplaceAllAbsent("{url}", hp, host);
    ReplaceAllAbsent("{url}", pp, port);
    ReplaceAllHead(up, "", url);
    assert ReplaceAll("", up, url) == "";
    assert url + "" == url;
  }

  /** The website template is its own `{url}` and too short to hold `{host}` or `{port}`. */
  lemma UrlTemplateParts()
    ensures !Occurs("{url}", Placeholder("host")) && !Occurs("{url}", Placeholder("port"))
    ensures Placeholder("url") + "" == "{url}"
  {
    assert Placeholder("host") == "{host}" && Placeholder("port") == "{port}";
    assert |"{url}"| == 5;
    assert Placeholder("url") == "{url}";
  }

  /** Neither half of a concatenation holds a `{`, so the whole does not. */
  lemma NoBraceConcat(a: string, b: string)
    requires NoBrace(a) && NoBrace(b)
    ensures NoBrace(a + b)
  {
    forall k | 0 <= k < |a + b| ensures (a + b)[k] != '{' {
      if k >= |a| { assert (a + b)[k] == b[k - |a|]; }
    }
  }

  /** The values the start phase substitutes hold no `{`. */
  lemma LocalValuesNoBrace(port: int)
    ensures NoBrace("127.0.0.1") && NoBrace(IntToString(port))
    ensures NoBrace("http://127.0.0.1:" + IntToString(port))
  {
    var p := IntToString(port);
    assert NoBrace(p);
    assert NoBrace("http://127.0.0.1:");
    NoBraceConcat("http://127.0.0.1:", p);
  }

  /** What a locally published service shows the player (lines 576-584, 656-664). */
  lemma LocalServiceDisplay(custom: seq<ServiceType>, port: int)
    ensures FormatUserService(custom, "tcp", LocalKeywords(port)) == Success("nc 127.0.0.1 " + IntToString(port))
    ensures FormatUserService(custom, "website", LocalKeywords(port)) == Success("http://127.0.0.1:" + IntToString(port))
  {
    var p := IntToString(port);
    var host := "127.0.0.1";
    LocalValuesNoBrace(port);
    TcpDisplay(custom, host, p, "http://127.0.0.1:" + p);
    WebsiteDisplay(custom, host, p, "http://127.0.0.1:" + p);
    LocalTcpText(p);
  }

  lemma LocalTcpText(p: string)
    ensures "nc " + "127.0.0.1" + " " + p == "nc 127.0.0.1 " + p
  {
  }

  /** `tcp` on 127.0.0.1, external port 50000. */
  lemma TcpExample(custom: seq<ServiceType>)
    ensures FormatUserService(custom, "tcp", LocalKeywords(50000)) == Success("nc 127.0.0.1 50000")
  {
    LocalServiceDisplay(custom, 50000);
    FirstPortText();
  }

  lemma FirstPortText()
    ensures "nc 127.0.0.1 " + IntToString(50000) == "nc 127.0.0.1 50000"
  {
    assert NatToString(5) == "5";
    assert NatToString(50) == "50";
    assert NatToString(500) == "500";
    assert NatToString(5000) == "5000";
    assert IntToString(50000) == "50000";
  }

  /** A prefix that differs from `p` at some index does not start with `p`. */
  lemma DiffersAt(s: string, p: string, i: nat)
    requires i < |s| && i < |p| && s[i] != p[i]
    ensures !StartsWith(s, p)
  {
    if |p| <= |s| { assert s[..|p|][i] == s[i]; }
  }

  /** A keyword or placeholder name without braces, as Python identifiers are. */
  predicate PlainName(s: string) {
    forall k :: 0 <= k < |s| ==> s[k] != '{' && s[k] != '}'
  }

  /** `{x}` does not start with `{a}`, nor `{a}` with `{x}`, for different plain names. */
  lemma PlaceholdersDisjoint(a: string, x: string, s: string)
    requires PlainName(a) && PlainName(x) && a != x
    requires StartsWith(s, Placeholder(x))
    ensures !StartsWith(s, Placeholder(a))
  {
    var pat, p := Placeholder(a), Placeholder(x);
    if |pat| <= |s| {
      if |pat| < |p| {
        assert s[|pat| - 1] == p[|pat| - 1] == x[|pat| - 2];
        assert s[..|pat|][|pat| - 1] != pat[|pat| - 1];
      } else if |pat| > |p| {
        assert pat[|p| - 1] == a[|p| - 2];
        assert s[..|pat|][|p| - 1] == s[|p| - 1] == p[|p| - 1];
      } else {
        assert pat[1..|pat| - 1] == a && p[1..|p| - 1] == x;
        assert s[..|pat|] == p;
      }
    }
  }

  /** At `{x}` itself, `{a}` does not match and `{x}` is passed over. */
  lemma ReplaceAtPlaceholder(a: string, x: string, back: string, v: string)
    requires PlainName(a) && PlainName(x) && a != x
    ensures ReplaceAll(Placeholder(x) + back, Placeholder(a), v) == Placeholder(x) + ReplaceAll(back, Placeholder(a), v)
  {
    var pat, p := Placeholder(a), Placeholder(x);
    var s := p + back;
    assert s[..|p|] == p;
    PlaceholdersDisjoint(a, x, s);
    if |s| < |pat| {
      assert ReplaceAll(back, pat, v) == back;
    } else {
      assert s[1..] == p[1..] + back;
      ReplaceAllSkip(p[1..], back, pat, v);
      assert [s[0]] + p[1..] == p;
    }
  }

  /** `{` opens a placeholder and appears nowhere else in it. */
  lemma NoInnerOpen(a: string)
    requires PlainName(a)
    ensures forall k :: 0 < k < |Placeholder(a)| ==> Placeholder(a)[k] != '{'
  {
    var pat := Placeholder(a);
    forall k | 0 < k < |pat| ensures pat[k] != '{' {
      if k <= |a| { assert pat[k] == a[k - 1]; }
    }
  }

  /** A match of `{a}` at the start of `front + {x} + back` lies within `front`. */
  lemma MatchInFront(front: string, a: string, x: string, back: string)
    requires PlainName(a) && front != []
    ensures StartsWith(front + Placeholder(x) + back, Placeholder(a)) ==> StartsWith(front, Placeholder(a))
  {
    var pat, p := Placeholder(a), Placeholder(x);
    var s := front + p + back;
    if |front| < |pat| {
      if |pat| <= |s| {
        NoInnerOpen(a);
        assert s[..|pat|][|front|] == p[0] != pat[|front|];
      }
    } else {
      assert front[..|pat|] == s[..|pat|];
    }
  }

  /** One step of ReplaceAll over a front that does not start with the pattern. */
  lemma ReplaceNoMatchStep(front: string, rest: string, pat: string, v: string)
    requires pat != "" && front != []
    requires !StartsWith(front + rest, pat)
    ensures ReplaceAll(front + rest, pat, v) == [front[0]] + ReplaceAll(front[1..] + rest, pat, v)
    ensures ReplaceAll(front, pat, v) == [front[0]] + ReplaceAll(front[1..], pat, v)
  {
    var s := front + rest;
    assert s[1..] == front[1..] + rest;
    if |s| < |pat| {
      assert ReplaceAll(front[1..] + rest, pat, v) == front[1..] + rest;
      assert ReplaceAll(front[1..], pat, v) == front[1..];
    } else if |front| >= |pat| {
      assert front[..|pat|] == s[..|pat|];
    } else {
      assert ReplaceAll(front[1..], pat, v) == front[1..];
    }
  }

  /** One step of ReplaceAll over a front that starts with the pattern. */
  lemma ReplaceMatchStep(front: string, rest: string, pat: string, v: string)
    requires pat != "" && StartsWith(front, pat)
    ensures ReplaceAll(front + rest, pat, v) == v + ReplaceAll(front[|pat|..] + rest, pat, v)
    ensures ReplaceAll(front, pat, v) == v + ReplaceAll(front[|pat|..], pat, v)
  {
    var s := front + rest;
    assert s[..|pat|] == pat;
    assert s[|pat|..] == front[|pat|..] + rest;
  }

  /** The property ReplaceAround proves, for one front. */
  predicate ReplacedAround(front: string, a: string, x: string, back: string, v: string) {
    ReplaceAll(front + Placeholder(x) + back, Placeholder(a), v)
    == ReplaceAll(front, Placeholder(a), v) + Placeholder(x) + ReplaceAll(back, Placeholder(a), v)
  }

  /** A front that starts with `{a}`: the match is replaced and the rest follows. */
  lemma ReplacedAroundMatch(front: string, a: string, x: string, back: string, v: string)
    requires StartsWith(front, Placeholder(a))
    requires ReplacedAround(front[|Placeholder(a)|..], a, x, back, v)
    ensures ReplacedAround(front, a, x, back, v)
  {
    var pat, p := Placeholder(a), Placeholder(x);
    var rest := p + back;
    assert front + p + back == front + rest;
    ReplaceMatchStep(front, rest, pat, v);
    assert front[|pat|..] + rest == front[|pat|..] + p + back;
  }

  /** A front that does not start a match: its first character is kept and the rest follows. */
  lemma ReplacedAroundSkip(front: string, a: string, x: string, back: string, v: string)
    requires front != [] && !StartsWith(front + Placeholder(x) + back, Placeholder(a))
    requires ReplacedAround(front[1..], a, x, back, v)
    ensures ReplacedAround(front, a, x, back, v)
  {
    var pat, p := Placeholder(a), Placeholder(x);
    var rest := p + back;
    var tail := front[1..];
    assert front + p + back == front + rest;
    assert tail + rest == tail + p + back;
    ReplaceNoMatchStep(front, rest, pat, v);
    var rt, rb := ReplaceAll(tail, pat, v), ReplaceAll(back, pat, v);
    assert ReplaceAll(tail + rest, pat, v) == rt + p + rb;
    assert ReplaceAll(front + rest, pat, v) == [front[0]] + (rt + p + rb);
    assert ReplaceAll(front, pat, v) == [front[0]] + rt;
    ConsAssoc(front[0], rt, p, rb);
  }

  lemma ConsAssoc(c: char, r: string, p: string, b: string)
    ensures [c] + (r + p + b) == ([c] + r) + p + b
  {
  }

  /**
   * Replacing `{a}` leaves an occurrence of a different placeholder `{x}` in
   * place: what lies before it and after it is replaced on its own.
   */
  lemma {:induction false} ReplaceAround(front: string, a: string, x: string, back: string, v: string)
    requires PlainName(a) && PlainName(x) && a != x
    ensures ReplaceAll(front + Placeholder(x) + back, Placeholder(a), v)
         == ReplaceAll(front, Placeholder(a), v) + Placeholder(x) + ReplaceAll(back, Placeholder(a), v)
    decreases |front|
  {
    var pat := Placeholder(a);
    if front == [] {
      ReplaceAtPlaceholder(a, x, back, v);
      assert front + Placeholder(x) + back == Placeholder(x) + back;
      assert ReplaceAll(front, pat, v) == [];
    } else {
      MatchInFront(front, a, x, back);
      if StartsWith(front, pat) {
        ReplaceAround(front[|pat|..], a, x, back, v);
        ReplacedAroundMatch(front, a, x, back, v);
      } else {
        ReplaceAround(front[1..], a, x, back, v);
        ReplacedAroundSkip(front, a, x, back, v);
      }
    }
  }

  /**
   * A placeholder no keyword names stays in the output verbatim: each side of
   * it is substituted on its own.
   */
  lemma {:induction false} UnmatchedPlaceholderKept(front: string, x: string, back: string, kwargs: seq<Keyword>)
    requires PlainName(x)
    requires forall i :: 0 <= i < |kwargs| ==> PlainName(kwargs[i].name) && kwargs[i].name != x
    ensures Substitute(front + Placeholder(x) + back, kwargs)
         == Substitute(front, kwargs) + Placeholder(x) + Substitute(back, kwargs)
    decreases |kwargs|
  {
    if kwargs != [] {
      var k := kwargs[0];
      ReplaceAround(front, k.name, x, back, k.value);
      assert forall i :: 1 <= i < |kwargs| ==> kwargs[1..][i - 1] == kwargs[i];
      UnmatchedPlaceholderKept(ReplaceAll(front, Placeholder(k.name), k.value), x,
                               ReplaceAll(back, Placeholder(k.name), k.value), kwargs[1..]);
    }
  }

  /** The instance: a custom `ssh` type showing `{user}` is shown as it is by the start phase. */
  lemma UnmatchedPlaceholderExample(port: int)
    ensures FormatUserService([ServiceType("ssh", "{user}")], "ssh", LocalKeywords(port)) == Success("{user}")
  {
    var kw := LocalKeywords(port);
    CustomTypeFirstMatch([ServiceType("ssh", "{user}")], "ssh", kw);
    UserTemplateParts();
    SubstituteNoPlaceholders("{user}", kw);
  }

  /** `{user}` holds none of the three placeholders the start phase fills. */
  lemma UserTemplateParts()
    ensures !Occurs("{user}", Placeholder("host"))
    ensures !Occurs("{user}", Placeholder("port"))
    ensures !Occurs("{user}", Placeholder("url"))
  {
    var user := "{user}";
    DiffersAt(user, Placeholder("host"), 1);
    DiffersAt(user, Placeholder("port"), 1);
    DiffersAt(user, Placeholder("url"), 2);
    OnlyLeadingBrace(user, Placeholder("host"));
    OnlyLeadingBrace(user, Placeholder("port"));
    OnlyLeadingBrace(user, Placeholder("url"));
  }
}

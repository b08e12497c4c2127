/** src/components/utils/index.ts: `cn` and `createPageUrl`. */
module Utils {
  import opened Wrappers
  import opened Json
  import opened Text
  import opened Seqs

  // ---------------------------------------------------------------------------
  // cn

  /** An argument of `cn`: a class name, or `None` for false, null or undefined. */
  type ClassArg = Option<string>

  function IsClass(): ClassArg -> bool {
    (c: ClassArg) => c.Some? && c.value != ""
  }

  /** The class names `filter(Boolean)` keeps, in order. */
  function Kept(classes: seq<ClassArg>): (r: seq<string>)
    ensures |r| <= |classes|
    ensures forall i :: 0 <= i < |r| ==> r[i] != ""
  {
    if classes == [] then []
    else (if IsClass()(classes[0]) then [classes[0].value] else []) + Kept(classes[1..])
  }

  /** `cn(...classes)`. */
  function Cn(classes: seq<ClassArg>): string {
    Join(Kept(classes), " ")
  }

  /** `s.split(sep)` for a one-character separator. */
  function Split(s: string, sep: char): (r: seq<string>)
    ensures |r| >= 1
  {
    if s == [] then [""]
    else
      var rest := Split(s[1..], sep);
      if s[0] == sep then [""] + rest else [[s[0]] + rest[0]] + rest[1..]
  }

  lemma {:induction false} SplitNoSep(s: string, sep: char)
    requires sep !in s
    ensures Split(s, sep) == [s]
  {
    if s != [] {
      assert s[0] in s;
      assert forall x :: x in s[1..] ==> x in s;
      SplitNoSep(s[1..], sep);
      assert s == [s[0]] + s[1..];
    }
  }

  lemma {:induction false} SplitAtFirst(a: string, sep: char, b: string)
    requires sep !in a
    ensures Split(a + [sep] + b, sep) == [a] + Split(b, sep)
  {
    if a == [] {
      assert a + [sep] + b == [sep] + b;
      assert ([sep] + b)[1..] == b;
    } else {
      assert (a + [sep] + b)[1..] == a[1..] + [sep] + b;
      SplitAtFirst(a[1..], sep, b);
      assert a == [a[0]] + a[1..];
    }
  }

  /** Splitting a joined list at the separator gives the list back when no
      element contains the separator. */
  lemma {:induction false} SplitJoin(parts: seq<string>, sep: char)
    requires parts != []
    requires forall i :: 0 <= i < |parts| ==> sep !in parts[i]
    ensures Split(Join(parts, [sep]), sep) == parts
  {
    if |parts| == 1 {
      SplitNoSep(parts[0], sep);
    } else {
      SplitJoin(parts[1..], sep);
      SplitAtFirst(parts[0], sep, Join(parts[1..], [sep]));
      assert parts == [parts[0]] + parts[1..];
    }
  }

  lemma {:induction false} KeptMeaning(classes: seq<ClassArg>)
    ensures Kept(classes) == [] <==> forall i :: 0 <= i < |classes| ==> !IsClass()(classes[i])
    ensures forall c :: c in Kept(classes) <==> Some(c) in classes && c != ""
  {
    if classes != [] {
      KeptMeaning(classes[1..]);
      assert forall i :: 1 <= i < |classes| ==> classes[i] == classes[1..][i - 1];
      assert forall x :: x in classes <==> x == classes[0] || x in classes[1..];
    }
  }

  /** `cn` is empty exactly when every argument is falsy; otherwise
      splitting it at spaces gives back the truthy names, in order, as long as
      none of them contains a space. */
  lemma CnSplitsBack(classes: seq<ClassArg>)
    requires forall i :: 0 <= i < |classes| ==> classes[i].Some? ==> ' ' !in classes[i].value
    ensures Cn(classes) == "" <==> forall i :: 0 <= i < |classes| ==> !IsClass()(classes[i])
    ensures Kept(classes) != [] ==> Split(Cn(classes), ' ') == Kept(classes)
  {
    KeptMeaning(classes);
    var k := Kept(classes);
    if k != [] {
      forall i | 0 <= i < |k|
        ensures ' ' !in k[i]
      {
        assert k[i] in k;
      }
      SplitJoin(k, ' ');
      assert |Join(k, " ")| >= |k[0]| > 0;
    }
  }

  // ---------------------------------------------------------------------------
  // createPageUrl

  /** `BASE_URL ?? "/"`, then anything but a string is "/". */
  function BaseOf(baseRaw: Option<Value>): string {
    match baseRaw
    case Some(Str(s)) => s
    case _ => "/"
  }

  function BaseNoTrail(base: string): (r: string)
    ensures EndsWith(base, "/") ==> base == r + "/"
    ensures !EndsWith(base, "/") ==> r == base
  {
    if EndsWith(base, "/") then base[..|base| - 1] else base
  }

  /** `url.replace(/\/\/+/g, "/")`: every run of slashes becomes one. */
  function Collapse(s: string): (r: string)
    ensures |r| <= |s|
  {
    if s == [] then []
    else if |s| >= 2 && s[0] == '/' && s[1] == '/' then Collapse(s[1..])
    else [s[0]] + Collapse(s[1..])
  }

  predicate NoDoubleSlash(s: string) {
    forall i :: 0 <= i < |s| - 1 ==> !(s[i] == '/' && s[i + 1] == '/')
  }

  /** `createPageUrl(page)` with the given `BASE_URL`; `None` is a missing page. */
  function CreatePageUrl(page: Option<string>, baseRaw: Option<Value>): string {
    var base := BaseOf(baseRaw);
    if page.None? || page.value == "" then base
    else Collapse(BaseNoTrail(base) + "/" + PagePath(page.value))
  }

  /** The page part: the landing page "Splash" is empty, and one leading
      slash is dropped. */
  function PagePath(page: string): string {
    var p0 := if page == "Splash" then "" else page;
    if StartsWith(p0, "/") then p0[1..] else p0
  }

  lemma PagePathOfSlashed(page: string)
    ensures PagePath("/" + page) == page
  {
    assert ("/" + page)[0] == '/' != "Splash"[0];
    assert ("/" + page)[..1] == "/";
    assert ("/" + page)[1..] == page;
  }

  lemma {:induction false} CollapseFirst(s: string)
    requires s != []
    ensures Collapse(s) != [] && Collapse(s)[0] == s[0]
  {
    if |s| >= 2 && s[0] == '/' && s[1] == '/' {
      CollapseFirst(s[1..]);
    }
  }

  /** The result of collapsing has no doubled slash. */
  lemma {:induction false} CollapseNoDouble(s: string)
    ensures NoDoubleSlash(Collapse(s))
  {
    if s != [] {
      CollapseNoDouble(s[1..]);
      if !(|s| >= 2 && s[0] == '/' && s[1] == '/') && |s| >= 2 {
        CollapseFirst(s[1..]);
      }
    }
  }

  /** Text without a doubled slash is left as it is. */
  lemma {:induction false} CollapseFixes(s: string)
    requires NoDoubleSlash(s)
    ensures Collapse(s) == s
  {
    if s != [] {
      forall i | 0 <= i < |s[1..]| - 1
        ensures !(s[1..][i] == '/' && s[1..][i + 1] == '/')
      {
        assert s[1..][i] == s[i + 1] && s[1..][i + 1] == s[i + 2];
      }
      CollapseFixes(s[1..]);
    }
  }

  lemma {:induction false} CollapseAppendPlain(a: string, p: string)
    requires '/' !in p
    ensures Collapse(a + p) == Collapse(a) + p
  {
    if a == [] {
      assert a + p == p;
      assert NoDoubleSlash(p);
      CollapseFixes(p);
    } else {
      assert (a + p)[1..] == a[1..] + p;
      CollapseAppendPlain(a[1..], p);
      if |a| == 1 && p != [] {
        assert (a + p)[1] == p[0];
        assert p[0] in p;
      }
    }
  }

  lemma {:induction false} CollapseEndsWithSlash(a: string)
    ensures EndsWith(Collapse(a + "/"), "/")
  {
    if a == [] {
      assert a + "/" == "/";
    } else {
      assert (a + "/")[1..] == a[1..] + "/";
      CollapseEndsWithSlash(a[1..]);
    }
  }

  /** A missing or empty page gives the base unchanged. */
  lemma EmptyPageIsBase(baseRaw: Option<Value>)
    ensures CreatePageUrl(None, baseRaw) == BaseOf(baseRaw)
    ensures CreatePageUrl(Some(""), baseRaw) == BaseOf(baseRaw)
  {
  }

  /** A `BASE_URL` that is not a string behaves as "/". */
  lemma NonStringBaseIsRoot(page: Option<string>, baseRaw: Option<Value>)
    requires !(baseRaw.Some? && baseRaw.value.Str?)
    ensures CreatePageUrl(page, baseRaw) == CreatePageUrl(page, Some(Str("/")))
  {
  }

  /** For a non-empty page the URL never contains "//". */
  lemma NoDoubleSlashForPages(page: string, baseRaw: Option<Value>)
    requires page != ""
    ensures NoDoubleSlash(CreatePageUrl(Some(page), baseRaw))
  {
    CollapseNoDouble(BaseNoTrail(BaseOf(baseRaw)) + "/" + PagePath(page));
  }

  /** The landing page is the base itself with a trailing slash ensured,
      for a base without doubled slashes. */
  lemma SplashIsRoot(baseRaw: Option<Value>)
    requires NoDoubleSlash(BaseOf(baseRaw))
    ensures var base := BaseOf(baseRaw);
      CreatePageUrl(Some("Splash"), baseRaw) == if EndsWith(base, "/") then base else base + "/"
  {
    var base := BaseOf(baseRaw);
    var b := BaseNoTrail(base);
    assert StartsWith("", "/") == false;
    assert NoDoubleSlash(b + "/") by {
      if EndsWith(base, "/") {
        assert b + "/" == base;
      } else {
        assert b == base;
        if |b| >= 1 {
          assert b[|b| - 1..] != "/";
          assert b[|b| - 1] != '/';
        }
      }
    }
    assert b + "/" + "" == b + "/";
    CollapseFixes(b + "/");
  }

  /** One leading slash on the page is ignored. */
  lemma LeadingSlashIgnored(page: string, baseRaw: Option<Value>)
    requires page != "" && page != "Splash"
    ensures CreatePageUrl(Some("/" + page), baseRaw) == CreatePageUrl(Some(page), baseRaw)
  {
    var b := BaseNoTrail(BaseOf(baseRaw));
    PagePathOfSlashed(page);
    if StartsWith(page, "/") {
      assert PagePath(page) == page[1..];
      assert b + "/" + page == (b + "/") + "/" + page[1..] by {
        assert page == "/" + page[1..];
      }
      CollapseDropsSlash(b + "/", page[1..]);
    } else {
      assert PagePath(page) == page;
    }
  }

  /** Collapsing absorbs a slash that follows another. */
  lemma {:induction false} CollapseDropsSlash(a: string, rest: string)
    requires EndsWith(a, "/")
    ensures Collapse(a + "/" + rest) == Collapse(a + rest)
  {
    if |a| == 1 {
      assert a == "/";
      assert (a + "/" + rest)[1..] == a + rest;
    } else {
      assert (a + "/" + rest)[1..] == a[1..] + "/" + rest;
      assert (a + rest)[1..] == a[1..] + rest;
      assert a[1..][|a[1..]| - 1..] == a[|a| - 1..];
      CollapseDropsSlash(a[1..], rest);
    }
  }

  /** A page (with or without a query string) lacking slashes is appended
      verbatim after a slash, so "JobDetail?id=123" keeps its query. */
  lemma PageKeptVerbatim(page: string, baseRaw: Option<Value>)
    requires page != "" && page != "Splash" && '/' !in page
    ensures EndsWith(CreatePageUrl(Some(page), baseRaw), "/" + page)
  {
    var b := BaseNoTrail(BaseOf(baseRaw));
    assert page[0] in page;
    assert page[..1] != "/";
    CollapseAppendPlain(b + "/", page);
    CollapseEndsWithSlash(b);
    var c := Collapse(b + "/");
    assert c[|c| - 1..] == "/";
    assert (c + page)[|c + page| - |"/" + page|..] == "/" + page;
  }

  /** With the default base a slash-free page is "/" followed by the page. */
  lemma DefaultBaseUrl(page: string)
    requires page != "" && page != "Splash" && '/' !in page
    ensures CreatePageUrl(Some(page), None) == "/" + page
  {
    assert page[0] in page;
    assert page[..1] != "/";
    assert BaseNoTrail("/") == "";
    assert "" + "/" + page == "/" + page;
    CollapseAppendPlain("/", page);
    assert Collapse("/") == "/";
  }

  lemma JobDetailPrefixHasNoSlash()
    ensures '/' !in "JobDetail?id="
  {
  }

  /** With the default base, a page made of a slash-free prefix longer
      than "Splash" and a slash-free rest is "/" followed by both. */
  lemma PrefixedPageUrl(pre: string, rest: string)
    requires '/' !in pre && '/' !in rest && |pre| > 6
    ensures CreatePageUrl(Some(pre + rest), None) == "/" + pre + rest
  {
    var page := pre + rest;
    assert forall c :: c in page ==> c in pre || c in rest;
    DefaultBaseUrl(page);
    assert "/" + page == "/" + pre + rest;
  }

  /** With the default base, a job's detail page is "/JobDetail?id=<id>". */
  lemma JobDetailUrl(id: string)
    requires '/' !in id
    ensures CreatePageUrl(Some("JobDetail?id=" + id), None) == "/JobDetail?id=" + id
  {
    JobDetailPrefixHasNoSlash();
    PrefixedPageUrl("JobDetail?id=", id);
    assert "/" + "JobDetail?id=" == "/JobDetail?id=";
  }
}

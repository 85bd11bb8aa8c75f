/** The pages the Instagram tweak tells apart, and how a URL path is mapped
    to one of them (the frozen `Pages` table and the match chain of
    `updateActivePage` in dist/instagram.js). */
module Routes {
  import opened Values

  /** The entries of the `Pages` table. */
  datatype Page = Main | Explore | Reels | Inbox | EditAccount | MyAccount

  /** How a page's description is compared with a path. */
  datatype Rule = Exact(text: string) | Prefix(text: string) | Substring(text: string)

  /** The description each page's symbol carries; the own-account page's is
      the account name injected by the host. */
  function Description(p: Page, account: string): (d: string)
    ensures p != MyAccount ==> |d| > 0 && d[0] == '/'
    ensures p == MyAccount ==> d == account
  {
    match p
    case Main => "/"
    case Explore => "/explore"
    case Reels => "/reels"
    case Inbox => "/direct"
    case EditAccount => "/accounts/edit"
    case MyAccount => account
  }

  /** The test applied to a path for each page: equality for the root,
      a substring search for the own account, a prefix test for the rest. */
  function RuleOf(p: Page, account: string): (r: Rule)
    ensures r.text == Description(p, account)
    ensures r.Exact? <==> p == Main
    ensures r.Substring? <==> p == MyAccount
  {
    match p
    case Main => Exact(Description(p, account))
    case MyAccount => Substring(Description(p, account))
    case _ => Prefix(Description(p, account))
  }

  /** The order in which the rules are tried; the first match wins. */
  const Precedence: seq<Page> := [Main, Explore, Reels, Inbox, EditAccount, MyAccount]

  /** `s.startsWith(prefix)`. */
  predicate StartsWith(s: string, prefix: string)
  {
    |prefix| <= |s| && s[..|prefix|] == prefix
  }

  /** `t` occurs in `s` starting at index `i`. */
  predicate OccursAt(s: string, t: string, i: int)
  {
    0 <= i && i + |t| <= |s| && s[i..i + |t|] == t
  }

  /** `s.includes(t)`: `t` starts at the head of `s` or somewhere in its tail. */
  predicate Includes(s: string, t: string)
    decreases |s|
  {
    StartsWith(s, t) || (|s| > 0 && Includes(s[1..], t))
  }

  predicate Matches(r: Rule, path: string)
  {
    match r
    case Exact(t) => path == t
    case Prefix(t) => StartsWith(path, t)
    case Substring(t) => Includes(path, t)
  }

  /** Reference definition of a first-match-wins classifier: the first page
      of `pages` whose rule matches `path`, if any. */
  function FirstMatch(pages: seq<Page>, account: string, path: string): (r: Option<Page>)
    ensures r.Some? ==> r.value in pages && Matches(RuleOf(r.value, account), path)
    ensures r.None? ==> forall p :: p in pages ==> !Matches(RuleOf(p, account), path)
  {
    if pages == [] then None
    else if Matches(RuleOf(pages[0], account), path) then Some(pages[0])
    else FirstMatch(pages[1..], account, path)
  }

  /** The match chain of `updateActivePage`: the page a new path selects,
      or `previous` when no rule matches (there is no final else). */
  function Classify(path: string, account: string, previous: Page): (r: Page)
    ensures path == "/" ==> r == Main
    ensures r != previous ==> Matches(RuleOf(r, account), path)
  {
    if path == Description(Main, account) then Main
    else if StartsWith(path, Description(Explore, account)) then Explore
    else if StartsWith(path, Description(Reels, account)) then Reels
    else if StartsWith(path, Description(Inbox, account)) then Inbox
    else if StartsWith(path, Description(EditAccount, account)) then EditAccount
    else if Includes(path, Description(MyAccount, account)) then MyAccount
    else previous
  }

  /** `Includes` is the usual substring relation: some index of `s` starts
      an occurrence of `t`. */
  lemma {:induction false} IncludesIff(s: string, t: string)
    ensures Includes(s, t) <==> exists i :: OccursAt(s, t, i)
    decreases |s|
  {
    if Includes(s, t) {
      if StartsWith(s, t) {
        assert OccursAt(s, t, 0);
      } else {
        IncludesIff(s[1..], t);
        var i :| OccursAt(s[1..], t, i);
        assert s[1..][i..i + |t|] == s[i + 1..i + 1 + |t|];
        assert OccursAt(s, t, i + 1);
      }
    }
    if exists i :: OccursAt(s, t, i) {
      var i :| OccursAt(s, t, i);
      if i > 0 {
        assert s[1..][i - 1..i - 1 + |t|] == s[i..i + |t|];
        assert OccursAt(s[1..], t, i - 1);
        IncludesIff(s[1..], t);
      } else {
        assert StartsWith(s, t);
      }
    }
  }

  /** A non-empty account whose first character does not appear in the path
      is not found in it. */
  lemma {:induction false} NotIncludedWithoutFirstChar(s: string, t: string)
    requires |t| > 0
    requires forall k :: 0 <= k < |s| ==> s[k] != t[0]
    ensures !Includes(s, t)
    decreases |s|
  {
    if |s| > 0 {
      assert !StartsWith(s, t) by {
        if |t| <= |s| { assert s[..|t|][0] == s[0]; }
      }
      NotIncludedWithoutFirstChar(s[1..], t);
    }
  }

  /** The chain agrees with the reference classifier over `Precedence`,
      falling back to the previous page when nothing matches. */
  lemma ClassifyIsFirstMatch(path: string, account: string, previous: Page)
    ensures Classify(path, account, previous)
         == match FirstMatch(Precedence, account, path)
            case None => previous
            case Some(p) => p
  {
    var i: nat := 0;
    while i < |Precedence| && !Matches(RuleOf(Precedence[i], account), path)
      invariant i <= |Precedence|
      invariant forall j :: 0 <= j < i ==> !Matches(RuleOf(Precedence[j], account), path)
    {
      i := i + 1;
    }
    if i < |Precedence| {
      FirstMatchIsFirst(Precedence, account, path, i);
      ClassifyFirstRuleWins(path, account, previous, i);
    } else {
      forall p | p in Precedence ensures !Matches(RuleOf(p, account), path) {
        var j :| 0 <= j < |Precedence| && Precedence[j] == p;
      }
      assert FirstMatch(Precedence, account, path) == None;
      ClassifyNoMatchKeepsPrevious(path, account, previous);
    }
  }

  /** First match wins: when the rule of `Precedence[i]` matches and no
      earlier rule does, the path selects `Precedence[i]`. */
  lemma ClassifyFirstRuleWins(path: string, account: string, previous: Page, i: nat)
    requires i < |Precedence|
    requires Matches(RuleOf(Precedence[i], account), path)
    requires forall j :: 0 <= j < i ==> !Matches(RuleOf(Precedence[j], account), path)
    ensures Classify(path, account, previous) == Precedence[i]
  {
    if i > 0 { assert !Matches(RuleOf(Precedence[0], account), path); }
    if i > 1 { assert !Matches(RuleOf(Precedence[1], account), path); }
    if i > 2 { assert !Matches(RuleOf(Precedence[2], account), path); }
    if i > 3 { assert !Matches(RuleOf(Precedence[3], account), path); }
    if i > 4 { assert !Matches(RuleOf(Precedence[4], account), path); }
  }

  lemma {:induction false} FirstMatchIsFirst(pages: seq<Page>, account: string, path: string, i: nat)
    requires i < |pages|
    requires Matches(RuleOf(pages[i], account), path)
    requires forall j :: 0 <= j < i ==> !Matches(RuleOf(pages[j], account), path)
    ensures FirstMatch(pages, account, path) == Some(pages[i])
  {
    if i > 0 {
      assert !Matches(RuleOf(pages[0], account), path);
      FirstMatchIsFirst(pages[1..], account, path, i - 1);
    }
  }

  /** A path no rule matches keeps the previous page. */
  lemma ClassifyNoMatchKeepsPrevious(path: string, account: string, previous: Page)
    requires forall p :: p in Precedence ==> !Matches(RuleOf(p, account), path)
    ensures Classify(path, account, previous) == previous
  {
  }

  /** With an empty account name every path matches the own-account rule,
      so the previous page never survives a new path. */
  lemma EmptyAccountNeverKeepsPrevious(path: string, p1: Page, p2: Page)
    ensures Matches(RuleOf(MyAccount, ""), path)
    ensures Classify(path, "", p1) == Classify(path, "", p2)
  {
  }

  /** A path whose character at `k` differs from the prefix's does not start
      with it. */
  lemma NotStartsWithAt(s: string, prefix: string, k: nat)
    requires k < |prefix|
    requires k < |s| ==> s[k] != prefix[k]
    ensures !StartsWith(s, prefix)
  {
  }

  /** The explore rule is tried before the reels rule. */
  lemma ExploreBeforeReels(account: string, previous: Page)
    ensures Classify("/explore/reels", account, previous) == Explore
    ensures Classify("/explore/suggested", account, previous) == Explore
    ensures Classify("/reels/123", account, previous) == Reels
  {
    assert "/explore/reels"[..8] == "/explore";
    assert "/explore/suggested"[..8] == "/explore";
    NotStartsWithAt("/reels/123", "/explore", 1);
    assert "/reels/123"[..6] == "/reels";
  }

  /** The own-account rule matches the account anywhere in the path, and a
      path matching nothing keeps the previous page. */
  lemma OwnAccountAndFallback()
    ensures Classify("/jdoe/", "jdoe", Main) == MyAccount
    ensures Classify("/some/unrelated/path", "jdoe", Reels) == Reels
  {
    NotStartsWithAt("/jdoe/", "/explore", 1);
    NotStartsWithAt("/jdoe/", "/reels", 1);
    NotStartsWithAt("/jdoe/", "/direct", 1);
    NotStartsWithAt("/jdoe/", "/accounts/edit", 1);
    assert "/jdoe/"[1..][..4] == "jdoe";
    assert Includes("/jdoe/"[1..], "jdoe");
    var u := "/some/unrelated/path";
    NotStartsWithAt(u, "/explore", 1);
    NotStartsWithAt(u, "/reels", 1);
    NotStartsWithAt(u, "/direct", 1);
    NotStartsWithAt(u, "/accounts/edit", 1);
    NotIncludedWithoutFirstChar(u, "jdoe");
  }
}

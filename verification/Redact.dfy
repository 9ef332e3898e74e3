/**
 Redaction of credentials in URIs (forail/main/redact.py:9-60).  The loop rewrites the
 text it is scanning, and the text may grow, so neither termination nor the extent of
 the changes is obvious.  After a match that is kept the loop goes on from where it started
 to search, plus the length of the match, which need not be the end of the match.
 */
module Redact {

  import opened Options

  /** What the URL splitter makes of a URI; None is a field that is absent, and
      `Invalid` the exception for a text that is no URI. */
  datatype Split = Invalid | Parts(username: Option<string>, password: Option<string>, netloc: string)

  /** The character classes of the regular expression and the splitter are given. */
  datatype Config = Config(words: set<char>, spaces: set<char>, split: string -> Split) {
    predicate Sane() {
      && words !! spaces
      && ':' !in spaces
      && NoSpace(REPLACEMENT)
    }

    predicate NoSpace(text: string) {
      forall i :: 0 <= i < |text| ==> text[i] !in spaces
    }

    /** Word characters from `i` up to a colon at `c`, with at least one more character
        after it that is not white space. */
    predicate SchemeAt(text: string, i: nat, c: nat) {
      && c + 1 < |text| && text[c] == ':' && text[c + 1] !in spaces
      && forall j :: i <= j < c ==> text[j] in words
    }

    /** A match of the pattern starts at `i`: the scheme has one to twenty characters. */
    predicate MatchAt(text: string, i: nat) {
      exists c: nat :: i < c <= i + 20 && SchemeAt(text, i, c)
    }

    /** The end of a match: the next white space. */
    function RunEnd(text: string, i: nat): (end: nat)
      requires i <= |text|
      ensures i <= end <= |text|
      ensures forall j :: i <= j < end ==> text[j] !in spaces
      ensures end < |text| ==> text[end] in spaces
      decreases |text| - i
    {
      if i < |text| && text[i] !in spaces then RunEnd(text, i + 1) else i
    }

    /** The leftmost match from `i` on. */
    function Search(text: string, i: nat): (r: Option<nat>)
      ensures r.Some? ==> i <= r.value < |text| && MatchAt(text, r.value)
      ensures r.Some? ==> forall j :: i <= j < r.value ==> !MatchAt(text, j)
      ensures r.None? ==> forall j :: i <= j ==> !MatchAt(text, j)
      decreases |text| - i
    {
      if i >= |text| then None
      else if MatchAt(text, i) then Some(i)
      else Search(text, i + 1)
    }
  }

  const REPLACEMENT: string := "$encrypted$"

  /** `text.replace(pattern, REPLACEMENT, count)` */
  function Replace(text: string, pattern: string, count: nat): string
    requires pattern != ""
    decreases |text|
  {
    if count == 0 || |text| < |pattern| then text
    else if text[..|pattern|] == pattern then REPLACEMENT + Replace(text[|pattern|..], pattern, count - 1)
    else [text[0]] + Replace(text[1..], pattern, count)
  }

  function Colons(text: string): nat {
    if text == "" then 0 else (if text[0] == ':' then 1 else 0) + Colons(text[1..])
  }

  function BeforeColon(text: string): string
    requires Colons(text) > 0
  {
    if text[0] == ':' then "" else [text[0]] + BeforeColon(text[1..])
  }

  function AfterColon(text: string): string
    requires Colons(text) > 0
  {
    if text[0] == ':' then text[1..] else AfterColon(text[1..])
  }

  /** What is to become of one matched URI. */
  datatype Verdict = Keep | Put(text: string)

  function Cleaned(uri: string, username: string, password: string): string {
    var first := if username != "" then Replace(uri, username, 1) else uri;
    if password != "" then Replace(first, password, 2) else first
  }

  function Judge(cfg: Config, uri: string): Verdict {
    match cfg.split(uri)
    case Invalid => Put(REPLACEMENT)
    case Parts(u, p, netloc) =>
      var username := if u.Some? then u.value else "";
      var password := if p.Some? then p.value else "";
      if username != "" || password != "" then Put(Cleaned(uri, username, password))
      else if Colons(netloc) == 0 then Keep
      else if Colons(netloc) == 1 then Put(Cleaned(uri, BeforeColon(netloc), AfterColon(netloc)))
      else Put(REPLACEMENT)
  }

  /** The URIs over which the code that takes them apart raises an exception. */
  predicate Fails(cfg: Config, uri: string) {
    match cfg.split(uri)
    case Invalid => true
    case Parts(u, p, netloc) => (u.None? || u.value == "") && (p.None? || p.value == "") && Colons(netloc) > 1
  }

  lemma {:induction false} ReplaceNoSpace(cfg: Config, text: string, pattern: string, count: nat)
    requires cfg.Sane() && pattern != "" && cfg.NoSpace(text) && text != ""
    ensures cfg.NoSpace(Replace(text, pattern, count)) && Replace(text, pattern, count) != ""
    decreases |text|
  {
    if count == 0 || |text| < |pattern| {
    } else if text[..|pattern|] == pattern {
      if text[|pattern|..] != "" {
        ReplaceNoSpace(cfg, text[|pattern|..], pattern, count - 1);
      }
    } else if text[1..] != "" {
      ReplaceNoSpace(cfg, text[1..], pattern, count);
    }
  }

  lemma JudgeNoSpace(cfg: Config, uri: string)
    requires cfg.Sane() && cfg.NoSpace(uri) && uri != "" && Judge(cfg, uri).Put?
    ensures cfg.NoSpace(Judge(cfg, uri).text) && Judge(cfg, uri).text != ""
  {
    forall u: string, p: string
      ensures cfg.NoSpace(Cleaned(uri, u, p)) && Cleaned(uri, u, p) != ""
    {
      if u != "" {
        ReplaceNoSpace(cfg, uri, u, 1);
      }
      if p != "" {
        ReplaceNoSpace(cfg, if u != "" then Replace(uri, u, 1) else uri, p, 2);
      }
    }
  }

  // ----- The verdict in terms of the split -----

  predicate Occurs(text: string, x: string, i: int) {
    0 <= i && i + |x| <= |text| && text[i..i + |x|] == x
  }

  /** How often `x` occurs, counted from the left and without overlaps. */
  function Times(text: string, x: string): nat
    requires x != ""
    decreases |text|
  {
    if |text| < |x| then 0
    else if text[..|x|] == x then 1 + Times(text[|x|..], x)
    else Times(text[1..], x)
  }

  lemma OccursBehind(a: string, b: string, x: string, j: nat)
    ensures Occurs(a + b, x, |a| + j) <==> Occurs(b, x, j)
    ensures j + |x| <= |a| ==> (Occurs(a + b, x, j) <==> Occurs(a, x, j))
  {
    assert j + |x| <= |b| ==> (a + b)[|a| + j..|a| + j + |x|] == b[j..j + |x|];
    assert j + |x| <= |a| ==> (a + b)[j..j + |x|] == a[j..j + |x|];
  }

  /** No occurrence of `x` begins in `a` and ends in `b`. */
  ghost predicate Apart(a: string, b: string, x: string) {
    forall j: nat :: j < |a| && Occurs(a + b, x, j) ==> j + |x| <= |a|
  }

  lemma ApartBehind(a: string, b: string, x: string, n: nat)
    requires n <= |a| && Apart(a, b, x)
    ensures Apart(a[n..], b, x)
  {
    hide Occurs;
    assert a + b == a[..n] + (a[n..] + b);
    forall j: nat | j < |a[n..]| && Occurs(a[n..] + b, x, j)
      ensures j + |x| <= |a[n..]|
    {
      OccursBehind(a[..n], a[n..] + b, x, j);
      assert n + j < |a| && Occurs(a + b, x, n + j);
    }
  }

  lemma ReplaceStep(text: string, x: string, n: nat)
    requires x != "" && n > 0 && text != ""
    ensures Occurs(text, x, 0) ==> |x| <= |text| && Replace(text, x, n) == REPLACEMENT + Replace(text[|x|..], x, n - 1)
                                   && Times(text, x) == 1 + Times(text[|x|..], x)
    ensures !Occurs(text, x, 0) ==> Replace(text, x, n) == [text[0]] + Replace(text[1..], x, n) && Times(text, x) == Times(text[1..], x)
  {
    if |text| < |x| {
      assert text == [text[0]] + text[1..];
    }
  }

  /** What becomes of `x` and the rest `b` of a text when `k` occurrences are in front of it. */
  function Behind(x: string, b: string, n: nat, k: nat): string
    requires x != ""
  {
    if k < n then REPLACEMENT + Replace(b, x, n - 1 - k) else x + b
  }

  lemma BehindNext(x: string, b: string, n: nat, k: nat)
    requires x != "" && n > 0
    ensures Behind(x, b, n - 1, k) == Behind(x, b, n, 1 + k)
  {
  }

  /** What becomes of an occurrence of `x` behind `a` that no other one reaches into: it is
      replaced exactly if fewer than `n` are in front of it. */
  lemma {:induction false} PlaceReplaced(a: string, x: string, b: string, n: nat)
    requires x != "" && Apart(a, x + b, x)
    ensures Replace(a + (x + b), x, n) == Replace(a, x, n) + Behind(x, b, n, Times(a, x))
    decreases |a|
  {
    hide Replace, Times, Occurs, Apart, Behind;
    var text := a + (x + b);
    if n == 0 {
      ReplaceNothing(text, x);
      ReplaceNothing(a, x);
      BehindNone(x, b, Times(a, x));
    } else if a == "" {
      PlaceFirst(x, b, n);
      assert text == x + b;
    } else {
      ReplaceStep(text, x, n);
      ReplaceStep(a, x, n);
      OccursBehind(a, x + b, x, 0);
      if Occurs(text, x, 0) {
        ApartHere(a, x + b, x);
        var rest := a[|x|..];
        assert text[|x|..] == rest + (x + b);
        ApartBehind(a, x + b, x, |x|);
        PlaceReplaced(rest, x, b, n - 1);
        BehindNext(x, b, n, Times(rest, x));
        Reassociate(REPLACEMENT, Replace(rest, x, n - 1), Behind(x, b, n - 1, Times(rest, x)));
      } else {
        OccursShort(a, x + b, x);
        var rest := a[1..];
        assert text[1..] == rest + (x + b) && text[0] == a[0];
        ApartBehind(a, x + b, x, 1);
        PlaceReplaced(rest, x, b, n);
        Reassociate([a[0]], Replace(rest, x, n), Behind(x, b, n, Times(rest, x)));
      }
    }
  }

  lemma BehindNone(x: string, b: string, k: nat)
    requires x != ""
    ensures Behind(x, b, 0, k) == x + b
  {
  }

  lemma Reassociate(a: string, b: string, c: string)
    ensures a + b + c == a + (b + c)
  {
  }

  lemma PlaceFirst(x: string, b: string, n: nat)
    requires x != "" && n > 0
    ensures Replace(x + b, x, n) == "" + Behind(x, b, n, 0) && Replace("", x, n) == "" && Times("", x) == 0
  {
    assert (x + b)[..|x|] == x && (x + b)[|x|..] == b;
  }

  lemma ApartHere(a: string, b: string, x: string)
    requires Apart(a, b, x) && a != "" && Occurs(a + b, x, 0)
    ensures |x| <= |a|
  {
  }

  lemma OccursShort(a: string, b: string, x: string)
    requires !Occurs(a + b, x, 0)
    ensures !Occurs(a, x, 0)
  {
    OccursBehind(a, b, x, 0);
  }

  lemma {:induction false} NowhereIn(text: string, x: string, n: nat)
    requires x != "" && forall j: nat :: !Occurs(text, x, j)
    ensures Replace(text, x, n) == text && Times(text, x) == 0
    decreases |text|
  {
    if text != "" {
      hide Occurs, Replace, Times;
      assert text == [text[0]] + text[1..];
      forall j: nat
        ensures !Occurs(text[1..], x, j)
      {
        OccursBehind([text[0]], text[1..], x, j);
      }
      NowhereIn(text[1..], x, n);
      if n > 0 {
        ReplaceStep(text, x, n);
      } else {
        ReplaceStep(text, x, 1);
        ReplaceNothing(text, x);
      }
    }
  }

  lemma ReplaceNothing(text: string, x: string)
    requires x != ""
    ensures Replace(text, x, 0) == text
  {
  }

  lemma OnlyThere(a: string, x: string, b: string, n: nat)
    requires x != "" && n > 0 && forall j: nat :: Occurs(a + (x + b), x, j) ==> j == |a|
    ensures Replace(a + (x + b), x, n) == a + (REPLACEMENT + b)
  {
    hide Occurs, Replace, Times;
    var text := a + (x + b);
    assert text == (a + x) + b;
    forall j: nat
      ensures !Occurs(a, x, j) && !Occurs(b, x, j)
    {
      OccursBehind(a, x + b, x, j);
      OccursBehind(a + x, b, x, j);
      assert Occurs(b, x, j) ==> Occurs(text, x, |a + x| + j);
      if Occurs(a, x, j) {
        OccursInside(a, x, j);
      }
    }
    NowhereIn(a, x, n);
    NowhereIn(b, x, n - 1);
    PlaceReplaced(a, x, b, n);
  }

  lemma OccursInside(a: string, x: string, j: nat)
    requires Occurs(a, x, j)
    ensures j + |x| <= |a|
  {
  }

  lemma {:induction false} ColonsAre(text: string)
    ensures Colons(text) == 0 <==> ':' !in text
    ensures Colons(text) > 1 <==> exists i, j :: 0 <= i < j < |text| && text[i] == text[j] == ':'
  {
    if text != "" {
      var rest := text[1..];
      ColonsAre(rest);
      assert text == [text[0]] + rest;
      if i, j :| 0 <= i < j < |rest| && rest[i] == rest[j] == ':' {
        assert 0 <= i + 1 < j + 1 < |text| && text[i + 1] == ':' && text[j + 1] == ':';
      }
      if text[0] == ':' && ':' in rest {
        var j :| 0 <= j < |rest| && rest[j] == ':';
        assert 0 <= 0 < j + 1 < |text| && text[0] == ':' && text[j + 1] == ':';
      }
      if i, j :| 0 <= i < j < |text| && text[i] == text[j] == ':' {
        assert rest[j - 1] == ':';
        if i > 0 {
          assert 0 <= i - 1 < j - 1 < |rest| && rest[i - 1] == ':' && rest[j - 1] == ':';
        }
      }
    }
  }

  lemma {:induction false} SidesOfColon(u: string, p: string)
    requires ':' !in u && ':' !in p
    ensures Colons(u + ":" + p) == 1 && BeforeColon(u + ":" + p) == u && AfterColon(u + ":" + p) == p
  {
    var text := u + ":" + p;
    if u == "" {
      assert text[1..] == p;
      ColonsAre(p);
    } else {
      assert text[1..] == u[1..] + ":" + p;
      SidesOfColon(u[1..], p);
      assert u == [u[0]] + u[1..];
    }
  }

  /** A field of the split that is absent or empty. */
  predicate Lacks(field: Option<string>) {
    field == None || field == Some("")
  }

  /** A URI is kept if and only if it can be split, into neither user name nor password, and no colon
      is left in its network location. */
  lemma KeptIff(cfg: Config, uri: string)
    ensures Judge(cfg, uri).Keep? <==>
              match cfg.split(uri) case Invalid => false case Parts(u, p, netloc) => Lacks(u) && Lacks(p) && ':' !in netloc
  {
    if cfg.split(uri).Parts? {
      ColonsAre(cfg.split(uri).netloc);
    }
  }

  /** It goes as a whole if it cannot be split, or without user name and password has more than one
      colon in its network location. */
  lemma WholeReplaced(cfg: Config, uri: string)
    requires match cfg.split(uri)
             case Invalid => true
             case Parts(u, p, netloc) =>
               Lacks(u) && Lacks(p) && exists i, j :: 0 <= i < j < |netloc| && netloc[i] == netloc[j] == ':'
    ensures Judge(cfg, uri) == Put("$encrypted$")
  {
    if cfg.split(uri).Parts? {
      ColonsAre(cfg.split(uri).netloc);
    }
  }

  /** The user name and the password of a URI: those of the split, or without either, the two sides of
      the one colon in the network location. */
  predicate HasCredentials(cfg: Config, uri: string, u: string, p: string) {
    match cfg.split(uri)
    case Invalid => false
    case Parts(us, ps, netloc) =>
      if Lacks(us) && Lacks(ps) then ':' !in u && ':' !in p && netloc == u + ":" + p
      else (if Lacks(us) then u == "" else us == Some(u)) && (if Lacks(ps) then p == "" else ps == Some(p))
  }

  lemma JudgedBy(cfg: Config, uri: string, u: string, p: string)
    requires HasCredentials(cfg, uri, u, p)
    ensures Judge(cfg, uri) == Put(Cleaned(uri, u, p))
  {
    hide Cleaned;
    if ':' !in u && ':' !in p {
      SidesOfColon(u, p);
    }
  }

  lemma NameReplaced(pre: string, u: string, p: string, post: string)
    requires u != "" && forall j: nat :: Occurs(pre + u + ":" + p + post, u, j) ==> j == |pre|
    ensures Replace(pre + u + ":" + p + post, u, 1) == (pre + REPLACEMENT + ":") + (p + post)
  {
    hide Replace, Occurs;
    assert pre + u + ":" + p + post == pre + (u + (":" + p + post));
    OnlyThere(pre, u, ":" + p + post, 1);
    assert pre + (REPLACEMENT + (":" + p + post)) == (pre + REPLACEMENT + ":") + (p + post);
  }

  /** User name and password that occur nowhere else are both replaced.  The password is looked for
      when the user name has gone already, so it must not occur in what stands for it either. */
  lemma CredentialsReplaced(cfg: Config, pre: string, u: string, p: string, post: string)
    requires u != "" && p != "" && HasCredentials(cfg, pre + u + ":" + p + post, u, p)
    requires forall j: nat :: Occurs(pre + u + ":" + p + post, u, j) ==> j == |pre|
    requires forall j: nat :: Occurs(pre + "$encrypted$" + ":" + p + post, p, j) ==> j == |pre| + 12
    ensures Judge(cfg, pre + u + ":" + p + post) == Put(pre + "$encrypted$" + ":" + "$encrypted$" + post)
  {
    hide Replace, Judge, HasCredentials, Occurs;
    var front := pre + REPLACEMENT + ":";
    assert |front| == |pre| + 12;
    JudgedBy(cfg, pre + u + ":" + p + post, u, p);
    NameReplaced(pre, u, p, post);
    assert pre + "$encrypted$" + ":" + p + post == front + (p + post);
    OnlyThere(front, p, post, 2);
    assert front + (REPLACEMENT + post) == pre + "$encrypted$" + ":" + "$encrypted$" + post;
  }

  /** Only one of the two. */
  lemma OneReplaced(cfg: Config, pre: string, x: string, post: string)
    requires x != "" && forall j: nat :: Occurs(pre + (x + post), x, j) ==> j == |pre|
    requires HasCredentials(cfg, pre + (x + post), x, "") || HasCredentials(cfg, pre + (x + post), "", x)
    ensures Judge(cfg, pre + (x + post)) == Put(pre + ("$encrypted$" + post))
  {
    hide Replace, Judge, HasCredentials, Occurs;
    if HasCredentials(cfg, pre + (x + post), x, "") {
      JudgedBy(cfg, pre + (x + post), x, "");
      OnlyThere(pre, x, post, 1);
    } else {
      JudgedBy(cfg, pre + (x + post), "", x);
      OnlyThere(pre, x, post, 2);
    }
  }

  /** At most two occurrences are replaced.  Where the user name occurs only at its place, the
      password is replaced at its own place exactly if fewer than two occurrences are in front of it,
      in the text or in what stands for the user name. */
  lemma PasswordStaysIff(cfg: Config, pre: string, u: string, p: string, post: string)
    requires u != "" && p != "" && HasCredentials(cfg, pre + u + ":" + p + post, u, p)
    requires forall j: nat :: Occurs(pre + u + ":" + p + post, u, j) ==> j == |pre|
    requires Apart(pre + "$encrypted$" + ":", p + post, p)
    ensures var front := pre + "$encrypted$" + ":";
            Judge(cfg, pre + u + ":" + p + post)
            == Put(Replace(front, p, 2) + if Times(front, p) < 2 then "$encrypted$" + Replace(post, p, 1 - Times(front, p)) else p + post)
  {
    hide Replace, Judge, HasCredentials, Times, Apart, Occurs;
    JudgedBy(cfg, pre + u + ":" + p + post, u, p);
    NameReplaced(pre, u, p, post);
    PlaceReplaced(pre + REPLACEMENT + ":", p, post, 2);
  }

  /** So a password of one letter that the scheme has twice stays. */
  lemma ShortPasswordStays(cfg: Config)
    requires HasCredentials(cfg, "http://bob:t@h", "bob", "t")
    ensures Judge(cfg, "http://bob:t@h") == Put("h" + REPLACEMENT + REPLACEMENT + "p://$encrypted$:t@h")
  {
    hide Judge, HasCredentials, Replace, Times, Occurs;
    var uri, front, rest := "http://bob:t@h", "http://$encrypted$:", "p://$encrypted$:";
    assert uri == "http://" + "bob" + ":" + "t" + "@h" && "http://" + REPLACEMENT + ":" == front;
    forall j: nat
      ensures Occurs(uri, "bob", j) ==> j == 7
    {
      if Occurs(uri, "bob", j) {
        OccursStarts(uri, "bob", j);
      }
    }
    LettersApart(front, 't', "@h");
    PasswordStaysIff(cfg, "http://", "bob", "t", "@h");
    assert front == ['h'] + ("t" + ("t" + rest));
    TwiceInFront('h', "t", rest);
    assert ['h'] + (REPLACEMENT + (REPLACEMENT + rest)) + ("t" + "@h") == "h" + REPLACEMENT + REPLACEMENT + "p://$encrypted$:t@h";
  }

  lemma OccursStarts(text: string, x: string, j: nat)
    requires x != "" && Occurs(text, x, j)
    ensures j + |x| <= |text| && text[j] == x[0] && text[j + |x| - 1] == x[|x| - 1]
  {
    assert text[j..j + |x|][0] == text[j] && text[j..j + |x|][|x| - 1] == text[j + |x| - 1];
  }

  lemma LettersApart(a: string, c: char, b: string)
    ensures Apart(a, [c] + b, [c])
  {
  }

  lemma TwiceInFront(c: char, x: string, rest: string)
    requires |x| == 1 && x[0] != c
    ensures Replace([c] + (x + (x + rest)), x, 2) == [c] + (REPLACEMENT + (REPLACEMENT + rest))
    ensures Times([c] + (x + (x + rest)), x) >= 2
  {
    hide Replace, Times;
    var inner := x + (x + rest);
    var text := [c] + inner;
    assert text[..1] == [c] && text[1..] == inner && inner[1..] == x + rest && (x + rest)[1..] == rest;
    assert inner[..1] == x && (x + rest)[..1] == x;
    ReplaceStep(text, x, 2);
    ReplaceStep(inner, x, 2);
    ReplaceStep(x + rest, x, 1);
    ReplaceNothing(rest, x);
  }

  // ----- Matches -----

  /** A match is a scheme of one to twenty word characters, a colon and something that is not white
      space. */
  lemma MatchIs(cfg: Config, text: string, i: nat)
    requires i <= |text|
    ensures cfg.MatchAt(text, i) <==>
              exists a: string, c: char, b: string ::
                text[i..] == a + ":" + [c] + b && 1 <= |a| <= 20 && (forall j :: 0 <= j < |a| ==> a[j] in cfg.words) && c !in cfg.spaces
  {
    if cfg.MatchAt(text, i) {
      var c: nat :| i < c <= i + 20 && cfg.SchemeAt(text, i, c);
      assert text[i..] == text[i..c] + ":" + [text[c + 1]] + text[c + 2..];
    }
    if a: string, c: char, b: string :|
         text[i..] == a + ":" + [c] + b && 1 <= |a| <= 20 && (forall j :: 0 <= j < |a| ==> a[j] in cfg.words) && c !in cfg.spaces {
      var rest := a + ":" + [c] + b;
      assert rest[|a|] == ':' && rest[|a| + 1] == c;
      forall j | i <= j < i + |a|
        ensures text[j] in cfg.words
      {
        assert text[j] == text[i..][j - i] == a[j - i];
      }
      assert text[i + |a|] == text[i..][|a|] && text[i + |a| + 1] == text[i..][|a| + 1];
      assert cfg.SchemeAt(text, i, i + |a|);
    }
  }

  lemma SchemeStays(cfg: Config, text: string, i: nat, c: nat, gap: nat)
    requires cfg.Sane() && i <= gap < |text| && text[gap] in cfg.spaces && i < c && cfg.SchemeAt(text, i, c)
    ensures c + 1 < gap
  {
  }

  /** Matches do not see past the white space around them. */
  lemma MatchIsLocal(cfg: Config, text: string, lo: nat, hi: nat, i: nat)
    requires cfg.Sane() && lo <= hi <= |text| && i < hi - lo
    requires hi < |text| ==> text[hi] in cfg.spaces || text[hi - 1] in cfg.spaces
    ensures cfg.MatchAt(text, lo + i) <==> cfg.MatchAt(text[lo..hi], i)
  {
    var part := text[lo..hi];
    if cfg.MatchAt(text, lo + i) {
      var c: nat :| lo + i < c <= lo + i + 20 && cfg.SchemeAt(text, lo + i, c);
      if hi < |text| {
        SchemeStays(cfg, text, lo + i, c, if text[hi] in cfg.spaces then hi else hi - 1);
      }
      assert cfg.SchemeAt(part, i, c - lo);
    }
    if cfg.MatchAt(part, i) {
      var c: nat :| i < c <= i + 20 && cfg.SchemeAt(part, i, c);
      forall j | lo + i <= j < lo + c
        ensures text[j] in cfg.words
      {
        assert text[j] == part[j - lo];
      }
      assert cfg.SchemeAt(text, lo + i, lo + c);
    }
  }

  lemma MatchShape(cfg: Config, text: string, i: nat)
    requires cfg.Sane() && cfg.MatchAt(text, i)
    ensures i < |text| && text[i] !in cfg.spaces && i + 2 <= cfg.RunEnd(text, i)
  {
    var c: nat :| i < c <= i + 20 && cfg.SchemeAt(text, i, c);
    assert text[i] in cfg.words && text[i + 1] !in cfg.spaces;
  }

  lemma MatchBehind(cfg: Config, a: string, b: string, i: nat)
    ensures cfg.MatchAt(a + b, |a| + i) <==> cfg.MatchAt(b, i)
  {
    var text := a + b;
    if cfg.MatchAt(text, |a| + i) {
      var c: nat :| |a| + i < c <= |a| + i + 20 && cfg.SchemeAt(text, |a| + i, c);
      forall j | i <= j < c - |a|
        ensures b[j] in cfg.words
      {
        assert b[j] == text[|a| + j];
      }
      assert cfg.SchemeAt(b, i, c - |a|);
    }
    if cfg.MatchAt(b, i) {
      var c: nat :| i < c <= i + 20 && cfg.SchemeAt(b, i, c);
      forall j | |a| + i <= j < |a| + c
        ensures text[j] in cfg.words
      {
        assert text[j] == b[j - |a|];
      }
      assert cfg.SchemeAt(text, |a| + i, |a| + c);
    }
  }

  lemma RunEndIs(cfg: Config, text: string, i: nat, end: nat)
    requires i <= end <= |text| && (end < |text| ==> text[end] in cfg.spaces)
    requires forall j :: i <= j < end ==> text[j] !in cfg.spaces
    ensures cfg.RunEnd(text, i) == end
  {
  }

  lemma RunEndBehind(cfg: Config, a: string, b: string, i: nat)
    requires i <= |b|
    ensures cfg.RunEnd(a + b, |a| + i) == |a| + cfg.RunEnd(b, i)
  {
    var end := cfg.RunEnd(b, i);
    assert forall j :: |a| <= j < |a + b| ==> (a + b)[j] == b[j - |a|];
    RunEndIs(cfg, a + b, |a| + i, |a| + end);
  }

  lemma SearchIs(cfg: Config, text: string, from: nat, s: nat)
    requires from <= s < |text| && cfg.MatchAt(text, s) && forall i: nat :: from <= i < s ==> !cfg.MatchAt(text, i)
    ensures cfg.Search(text, from) == Some(s)
  {
  }

  lemma SearchIsNone(cfg: Config, text: string, from: nat)
    requires forall i: nat :: from <= i < |text| ==> !cfg.MatchAt(text, i)
    ensures cfg.Search(text, from) == None
  {
  }

  /** A search that starts in the quiet end of `a` finds what a search in `b` finds. */
  lemma SearchBehind(cfg: Config, a: string, b: string, o: int)
    requires forall i: nat :: Max0(o) <= i < |a| ==> !cfg.MatchAt(a + b, i)
    ensures var r := cfg.Search(b, Max0(o - |a|));
            cfg.Search(a + b, Max0(o)) == if r.Some? then Some(|a| + r.value) else None
  {
    hide Config.MatchAt;
    var r := cfg.Search(b, Max0(o - |a|));
    forall i: nat | |a| <= i
      ensures cfg.MatchAt(a + b, i) <==> cfg.MatchAt(b, i - |a|)
    {
      MatchBehind(cfg, a, b, i - |a|);
    }
    if r.Some? {
      assert cfg.MatchAt(a + b, |a| + r.value);
      SearchIs(cfg, a + b, Max0(o), |a| + r.value);
    } else {
      SearchIsNone(cfg, a + b, Max0(o));
    }
  }

  // ----- The loop on a text that does not grow -----

  function Max0(o: int): nat {
    if o < 0 then 0 else o
  }

  /** What becomes of `text` when the search for it starts `o` characters after its
      beginning, or before it if `o` is negative: nothing that has been rewritten is ever
      looked at again. */
  function Clean(cfg: Config, text: string, o: int): string
    requires cfg.Sane()
    decreases |text| - o
  {
    match cfg.Search(text, Max0(o))
    case None => text
    case Some(s) =>
      MatchShape(cfg, text, s);
      var end := cfg.RunEnd(text, s);
      match Judge(cfg, text[s..end])
      case Keep => Clean(cfg, text, o + (end - s))
      case Put(t) => text[..s] + t + Clean(cfg, text[end..], 0)
  }

  lemma CleanNothing(cfg: Config, text: string, o: int)
    requires cfg.Sane() && cfg.Search(text, Max0(o)).None?
    ensures Clean(cfg, text, o) == text
  {
  }

  /** A quiet beginning goes over unchanged. */
  lemma {:induction false} CleanBehind(cfg: Config, a: string, b: string, o: int)
    requires cfg.Sane() && forall i: nat :: Max0(o) <= i < |a| ==> !cfg.MatchAt(a + b, i)
    ensures Clean(cfg, a + b, o) == a + Clean(cfg, b, o - |a|)
    decreases |b| - (o - |a|)
  {
    hide Config.MatchAt, Config.Search, Config.RunEnd, Config.Sane, Judge, Clean;
    SearchBehind(cfg, a, b, o);
    var r := cfg.Search(b, Max0(o - |a|));
    if r.None? {
      CleanNothing(cfg, b, o - |a|);
      CleanNothing(cfg, a + b, o);
    } else {
      var s := r.value;
      CleanFound(cfg, b, o - |a|, s);
      CleanFound(cfg, a + b, o, |a| + s);
      var end := cfg.RunEnd(b, s);
      RunEndBehind(cfg, a, b, s);
      SlicesBehind(a, b, s, end);
      if Judge(cfg, b[s..end]).Keep? {
        CleanBehind(cfg, a, b, o + (end - s));
      } else {
        Joined(a, b[..s], Judge(cfg, b[s..end]).text, Clean(cfg, b[end..], 0));
      }
    }
  }

  lemma SlicesBehind(a: string, b: string, s: nat, end: nat)
    requires s <= end <= |b|
    ensures (a + b)[|a| + s..|a| + end] == b[s..end] && (a + b)[..|a| + s] == a + b[..s] && (a + b)[|a| + end..] == b[end..]
  {
  }

  lemma Joined(a: string, b: string, c: string, d: string)
    ensures a + b + c + d == a + (b + c + d)
  {
  }

  lemma Found(cfg: Config, text: string, from: nat)
    requires cfg.Sane() && cfg.Search(text, from).Some?
    ensures var s := cfg.Search(text, from).value; from <= s && s + 2 <= cfg.RunEnd(text, s) <= |text|
  {
    MatchShape(cfg, text, cfg.Search(text, from).value);
  }

  // ----- The loop token by token -----

  /** What becomes of one white-space-delimited token: it stays, and the next search starts
      `gap` characters before its end; or it is redacted from the match at `at` on. */
  datatype Fate = Stays(gap: int) | Hit(at: nat)

  /** A match always extends to the end of its token.  When it is kept, the next search
      starts at `o` plus the length of the match. */
  function TokenFate(cfg: Config, token: string, o: int): (f: Fate)
    requires cfg.Sane()
    ensures f.Hit? ==> o <= f.at < |token| && cfg.MatchAt(token, f.at) && Judge(cfg, token[f.at..]).Put?
    decreases |token| - o
  {
    match cfg.Search(token, Max0(o))
    case None => Stays(|token| - o)
    case Some(s) => if Judge(cfg, token[s..]).Put? then Hit(s) else TokenFate(cfg, token, o + (|token| - s))
  }

  function TokenText(cfg: Config, token: string, fate: Fate): string
    requires fate.Hit? ==> fate.at < |token| && Judge(cfg, token[fate.at..]).Put?
  {
    match fate case Stays(_) => token case Hit(s) => token[..s] + Judge(cfg, token[s..]).text
  }

  /** From where the next search starts to the end of the token as it is then. */
  function Gap(fate: Fate): int {
    match fate case Stays(gap) => gap case Hit(_) => 0
  }

  /** The text token by token; all white space stays. */
  function ByToken(cfg: Config, text: string, o: int): string
    requires cfg.Sane()
    decreases |text|
  {
    var n := cfg.RunEnd(text, 0);
    var fate := TokenFate(cfg, text[..n], o);
    if n == |text| then TokenText(cfg, text[..n], fate)
    else TokenText(cfg, text[..n], fate) + ([text[n]] + ByToken(cfg, text[n + 1..], -(Gap(fate) + 1)))
  }

  lemma TokenMatches(cfg: Config, token: string, tail: string)
    requires cfg.Sane() && (tail != "" ==> tail[0] in cfg.spaces)
    ensures forall i: nat :: i < |token| ==> (cfg.MatchAt(token + tail, i) <==> cfg.MatchAt(token, i))
  {
    var text := token + tail;
    assert text[0..|token|] == token;
    assert |token| < |text| ==> text[|token|] == tail[0];
    forall i: nat | i < |token|
      ensures cfg.MatchAt(text, i) <==> cfg.MatchAt(token, i)
    {
      MatchIsLocal(cfg, text, 0, |token|, i);
    }
  }

  /** What a search finds in a token it finds there in the text too. */
  lemma FoundInToken(cfg: Config, token: string, tail: string, o: int, s: nat)
    requires cfg.Sane() && cfg.NoSpace(token) && (tail != "" ==> tail[0] in cfg.spaces)
    requires cfg.Search(token, Max0(o)) == Some(s)
    ensures s < |token| && cfg.Search(token + tail, Max0(o)) == Some(s) && cfg.RunEnd(token + tail, s) == |token|
    ensures (token + tail)[s..|token|] == token[s..] && (token + tail)[..s] == token[..s]
    ensures (token + tail)[|token|..] == tail
  {
    hide Config.MatchAt;
    var text := token + tail;
    TokenMatches(cfg, token, tail);
    SearchIs(cfg, text, Max0(o), s);
    assert |token| < |text| ==> text[|token|] == tail[0];
    assert forall j :: 0 <= j < |token| ==> text[j] == token[j];
    RunEndIs(cfg, text, s, |token|);
  }

  /** One round of `Clean`. */
  lemma CleanFound(cfg: Config, text: string, o: int, s: nat)
    requires cfg.Sane() && cfg.Search(text, Max0(o)) == Some(s)
    ensures s + 2 <= cfg.RunEnd(text, s) && o <= s
    ensures var end := cfg.RunEnd(text, s);
            Clean(cfg, text, o) == match Judge(cfg, text[s..end])
                                   case Keep => Clean(cfg, text, o + (end - s))
                                   case Put(t) => text[..s] + t + Clean(cfg, text[end..], 0)
  {
    hide Config.MatchAt, Config.Search, Config.RunEnd, Judge;
    Found(cfg, text, Max0(o));
  }

  /** One token and what follows it. */
  lemma {:induction false} CleanToken(cfg: Config, token: string, tail: string, o: int)
    requires cfg.Sane() && cfg.NoSpace(token) && (tail != "" ==> tail[0] in cfg.spaces)
    ensures var fate := TokenFate(cfg, token, o);
            Clean(cfg, token + tail, o) == TokenText(cfg, token, fate) + Clean(cfg, tail, -Gap(fate))
    decreases |token| - o
  {
    hide Config.MatchAt, Judge, Config.RunEnd, Config.Search, Clean;
    var r := cfg.Search(token, Max0(o));
    if r.None? {
      TokenMatches(cfg, token, tail);
      CleanBehind(cfg, token, tail, o);
    } else {
      var s := r.value;
      FoundInToken(cfg, token, tail, o, s);
      CleanFound(cfg, token + tail, o, s);
      if Judge(cfg, token[s..]).Keep? {
        CleanToken(cfg, token, tail, o + (|token| - s));
      }
    }
  }

  lemma QuietSpace(cfg: Config, gap: char, rest: string)
    requires cfg.Sane() && gap in cfg.spaces
    ensures !cfg.MatchAt([gap] + rest, 0)
  {
    if cfg.MatchAt([gap] + rest, 0) {
      MatchShape(cfg, [gap] + rest, 0);
    }
  }

  /** The whole text, whose first search starts at its beginning or before it. */
  lemma {:induction false} CleanIsByToken(cfg: Config, text: string, o: int)
    requires cfg.Sane()
    ensures Clean(cfg, text, o) == ByToken(cfg, text, o)
    decreases |text|
  {
    hide Clean, Config.MatchAt, Config.Search, Config.RunEnd, TokenFate, TokenText;
    var n := cfg.RunEnd(text, 0);
    var token, tail := text[..n], text[n..];
    assert text == token + tail;
    CleanToken(cfg, token, tail, o);
    var fate := TokenFate(cfg, token, o);
    if n == |text| {
      assert token == text && tail == "";
      CleanNothing(cfg, "", -Gap(fate));
    } else {
      assert tail == [text[n]] + text[n + 1..];
      QuietSpace(cfg, text[n], text[n + 1..]);
      CleanBehind(cfg, [text[n]], text[n + 1..], -Gap(fate));
      CleanIsByToken(cfg, text[n + 1..], -(Gap(fate) + 1));
      assert -Gap(fate) - |[text[n]]| == -(Gap(fate) + 1);
    }
  }

  // ----- Consequences -----

  /** The white space of a text. */
  function Spaces(cfg: Config, text: string): string {
    if text == "" then "" else (if text[0] in cfg.spaces then [text[0]] else "") + Spaces(cfg, text[1..])
  }

  lemma {:induction false} SpacesConcat(cfg: Config, a: string, b: string)
    ensures Spaces(cfg, a + b) == Spaces(cfg, a) + Spaces(cfg, b)
  {
    if a == "" {
      assert a + b == b;
    } else {
      assert (a + b)[1..] == a[1..] + b;
      SpacesConcat(cfg, a[1..], b);
    }
  }

  lemma {:induction false} NoSpaces(cfg: Config, text: string)
    requires cfg.NoSpace(text)
    ensures Spaces(cfg, text) == ""
  {
    if text != "" {
      NoSpaces(cfg, text[1..]);
    }
  }

  lemma TokenTextNoSpace(cfg: Config, token: string, o: int)
    requires cfg.Sane() && cfg.NoSpace(token)
    ensures cfg.NoSpace(TokenText(cfg, token, TokenFate(cfg, token, o)))
  {
    var fate := TokenFate(cfg, token, o);
    if fate.Hit? {
      JudgeNoSpace(cfg, token[fate.at..]);
    }
  }

  /** The white space of the text is that of the input, character by character. */
  lemma {:induction false} SpacesKept(cfg: Config, text: string, o: int)
    requires cfg.Sane()
    ensures Spaces(cfg, ByToken(cfg, text, o)) == Spaces(cfg, text)
    decreases |text|
  {
    hide Config.MatchAt, Config.Search, Config.RunEnd, TokenFate, TokenText;
    var n := cfg.RunEnd(text, 0);
    var token := text[..n];
    var fate := TokenFate(cfg, token, o);
    TokenTextNoSpace(cfg, token, o);
    NoSpaces(cfg, token);
    NoSpaces(cfg, TokenText(cfg, token, fate));
    if n == |text| {
      assert token == text;
    } else {
      var gap, rest := [text[n]], text[n + 1..];
      var rest' := ByToken(cfg, rest, -(Gap(fate) + 1));
      SpacesKept(cfg, rest, -(Gap(fate) + 1));
      assert text == token + (gap + rest);
      SpacesConcat(cfg, token, gap + rest);
      SpacesConcat(cfg, gap, rest);
      SpacesConcat(cfg, TokenText(cfg, token, fate), gap + rest');
      SpacesConcat(cfg, gap, rest');
    }
  }

  /** A token in which no match calls for redaction stays. */
  lemma {:induction false} AllKeptStays(cfg: Config, token: string, o: int)
    requires cfg.Sane() && forall i: nat :: i < |token| && cfg.MatchAt(token, i) ==> Judge(cfg, token[i..]).Keep?
    ensures TokenFate(cfg, token, o).Stays?
    decreases |token| - o
  {
    hide Config.MatchAt, Judge;
    var r := cfg.Search(token, Max0(o));
    if r.Some? {
      AllKeptStays(cfg, token, o + (|token| - r.value));
    }
  }

  /** A token whose first match calls for redaction is redacted there. */
  lemma FirstIsHit(cfg: Config, token: string, o: int, s: nat)
    requires cfg.Sane() && o <= 0 && cfg.Search(token, 0) == Some(s) && Judge(cfg, token[s..]).Put?
    ensures TokenFate(cfg, token, o) == Hit(s)
  {
  }

  // ----- What happens behind a match that is kept -----

  lemma Grows(m: nat, d: nat, e: nat)
    requires d < e
    ensures m * e >= m * d + m
  {
    assert m * e == m * d + m * (e - d);
    MulOne(m, e - d);
  }

  lemma MulOne(m: nat, k: nat)
    requires k >= 1
    ensures m * k >= m
  {
  }

  lemma UniqueRemainder(q: nat, m: nat, d: nat, r: nat)
    requires m > 0 && q == m * d + r && r < m
    ensures q % m == r
  {
    var e := q / m;
    assert q == m * e + q % m;
    if d < e {
      Grows(m, d, e);
    }
    if e < d {
      Grows(m, e, d);
    }
  }

  lemma ModStep(q: nat, m: nat)
    requires 0 < m <= q
    ensures (q - m) % m == q % m
  {
    var d, r := (q - m) / m, (q - m) % m;
    assert q - m == m * d + r;
    assert m * (d + 1) == m * d + m;
    UniqueRemainder(q, m, d + 1, r);
  }

  /** From the start of a kept match of length `m`, with `q` quiet characters between the start
      of the search and the match, to where the token is searched again. */
  function Advance(q: nat, m: nat): (n: nat)
    requires m > 0
    ensures 1 <= n <= m
  {
    m - q % m
  }

  lemma AdvanceIs(q: nat, m: nat)
    requires m > 0
    ensures Advance(q, m) == m - q % m
  {
  }

  lemma AdvanceStep(q: nat, m: nat)
    requires m > 0
    ensures q >= m ==> Advance(q, m) == Advance(q - m, m)
    ensures q < m ==> Advance(q, m) == m - q
  {
    if q >= m {
      ModStep(q, m);
    } else {
      UniqueRemainder(q, m, 0, q);
    }
  }

  lemma FateKept(cfg: Config, token: string, o: int, s: nat)
    requires cfg.Sane() && cfg.Search(token, Max0(o)) == Some(s) && Judge(cfg, token[s..]).Keep?
    ensures TokenFate(cfg, token, o) == TokenFate(cfg, token, o + (|token| - s))
  {
  }

  /** Each search that finds the kept match again starts one length of it later, so the first
      that goes beyond its start is as far behind it as the remainder says. */
  lemma {:induction false} SearchedAgain(cfg: Config, token: string, o: int, s: nat)
    requires cfg.Sane() && cfg.Search(token, Max0(o)) == Some(s) && Judge(cfg, token[s..]).Keep?
    ensures s < |token| && o <= s
    ensures TokenFate(cfg, token, o) == TokenFate(cfg, token, s + Advance(s - o, |token| - s))
    decreases s - o
  {
    hide Config.MatchAt, Config.Search, Config.Sane, Config.RunEnd, Judge, Advance, TokenFate;
    var m := |token| - s;
    AdvanceStep(s - o, m);
    FateKept(cfg, token, o, s);
    if s - o >= m {
      SearchIs(cfg, token, Max0(o + m), s);
      SearchedAgain(cfg, token, o + m, s);
    }
  }

  /** The scheme of a match starts further matches that share its colon. */
  lemma RunMatches(cfg: Config, token: string, s: nat, c: nat, i: nat)
    requires s <= i < c <= s + 20 && cfg.SchemeAt(token, s, c)
    ensures cfg.MatchAt(token, i) && cfg.Search(token, i) == Some(i)
  {
    assert cfg.SchemeAt(token, i, c);
    SearchIs(cfg, token, i, i);
  }

  /** A search that starts inside such a run finds what it starts with, and if that is kept the
      token is over. */
  lemma InsideRun(cfg: Config, token: string, s: nat, c: nat, p: nat)
    requires cfg.Sane() && s <= p < c <= s + 20 && cfg.SchemeAt(token, s, c) && Judge(cfg, token[p..]).Keep?
    ensures TokenFate(cfg, token, p) == Stays(0)
  {
    hide Config.MatchAt, Config.Search, Judge, TokenFate, Advance;
    RunMatches(cfg, token, s, c, p);
    SearchedAgain(cfg, token, p, p);
    AdvanceStep(0, |token| - p);
    FateBeyond(cfg, token, |token|);
  }

  lemma FateBeyond(cfg: Config, token: string, o: nat)
    requires cfg.Sane() && o >= |token|
    ensures TokenFate(cfg, token, o) == Stays(|token| - o)
  {
  }

  lemma HitFrom(cfg: Config, token: string, from: nat, x: nat, p: nat)
    requires cfg.Sane() && cfg.Search(token, from) == Some(x) && from <= p <= x && Judge(cfg, token[x..]).Put?
    ensures TokenFate(cfg, token, p) == Hit(x)
  {
    hide Config.MatchAt, Judge;
    SearchIs(cfg, token, p, x);
  }

  /** A first match from `s` with its colon at `c`, which is kept whichever letter of its scheme
      it starts with, and behind it a match at `x` that calls for redaction: that one is redacted
      exactly when the token is searched again behind the scheme and no later than at `x`.  A
      search inside the scheme keeps the rest of the token, and with it the password. */
  lemma InnerMatchReached(cfg: Config, token: string, o: int, s: nat, c: nat, x: nat)
    requires cfg.Sane() && cfg.Search(token, Max0(o)) == Some(s) && s < c <= s + 20 && cfg.SchemeAt(token, s, c)
    requires forall i: nat :: s <= i < c ==> Judge(cfg, token[i..]).Keep?
    requires cfg.Search(token, c) == Some(x) && Judge(cfg, token[x..]).Put?
    ensures var m, q := |token| - s, s - o;
            && q >= 0 && m > 0
            && (TokenFate(cfg, token, o) == Hit(x) <==> c - s <= m - q % m <= x - s)
            && (m - q % m < c - s ==> TokenFate(cfg, token, o) == Stays(0))
  {
    hide Config.MatchAt, Config.Search, Config.Sane, Config.SchemeAt, Judge, TokenFate, Advance;
    SearchedAgain(cfg, token, o, s);
    AdvanceIs(s - o, |token| - s);
    var p := s + Advance(s - o, |token| - s);
    if p < c {
      InsideRun(cfg, token, s, c, p);
    } else if p <= x {
      HitFrom(cfg, token, c, x, p);
    }
  }

  /** If the second match, too, is redacted from whichever letter of its scheme, up to the colon
      at `d`, the search may also start inside that scheme, and what is in front of it stays. */
  lemma InnerRunReached(cfg: Config, token: string, o: int, s: nat, x: nat, d: nat, p: nat)
    requires cfg.Sane() && cfg.Search(token, Max0(o)) == Some(s) && Judge(cfg, token[s..]).Keep?
    requires s < x < p < d <= x + 20 && cfg.SchemeAt(token, x, d) && Judge(cfg, token[p..]).Put?
    ensures var m, q := |token| - s, s - o; q >= 0 && m > 0 && (m - q % m == p - s ==> TokenFate(cfg, token, o) == Hit(p))
  {
    hide Config.MatchAt, Config.Search, Config.Sane, Config.SchemeAt, Judge, TokenFate, Advance;
    SearchedAgain(cfg, token, o, s);
    AdvanceIs(s - o, |token| - s);
    RunMatches(cfg, token, x, d, p);
    HitFrom(cfg, token, p, p, p);
  }

  /** A token in a text: with a quiet one of length `n` and one white space in front of it, its
      search starts `n + 1` characters before its beginning. */
  lemma BehindQuiet(cfg: Config, quiet: string, gap: char, token: string)
    requires cfg.Sane() && cfg.NoSpace(quiet) && gap in cfg.spaces && cfg.NoSpace(token)
    requires forall i: nat :: i < |quiet| ==> !cfg.MatchAt(quiet, i)
    ensures ByToken(cfg, quiet + ([gap] + token), 0)
         == quiet + ([gap] + TokenText(cfg, token, TokenFate(cfg, token, -(|quiet| + 1))))
  {
    hide Config.MatchAt, Judge, Config.Search, Config.RunEnd;
    var text, n := quiet + ([gap] + token), |quiet|;
    assert forall j :: 0 <= j < n ==> text[j] == quiet[j];
    RunEndIs(cfg, text, 0, n);
    SearchIsNone(cfg, quiet, 0);
    assert text[..n] == quiet && text[n] == gap && text[n + 1..] == token;
    OneToken(cfg, token, -(n + 1));
  }

  lemma OneToken(cfg: Config, token: string, o: int)
    requires cfg.Sane() && cfg.NoSpace(token)
    ensures ByToken(cfg, token, o) == TokenText(cfg, token, TokenFate(cfg, token, o))
  {
    RunEndIs(cfg, token, 0, |token|);
    assert token[..|token|] == token;
  }

  // ----- Three texts -----

  /** Some letters are words, and of the URIs in the examples one has credentials. */
  function Example(): Config {
    Config({'j', 'd', 'b', 'c', 'u', 'w', 'h'}, {' '},
           uri => if uri == "b://u:w@h" then Parts(Some("u"), Some("w"), "u:w@h") else Parts(None, None, ""))
  }

  const URI: string := "jdbc:b://u:w@h"

  lemma NoWordNoMatch(cfg: Config, text: string, i: nat)
    requires i < |text| && text[i] !in cfg.words
    ensures !cfg.MatchAt(text, i)
  {
    var first := text[i];
    forall c: nat | i < c <= i + 20
      ensures !cfg.SchemeAt(text, i, c)
    {
      assert cfg.SchemeAt(text, i, c) ==> first in cfg.words;
    }
  }

  lemma ExampleMatches()
    ensures |URI| == 14 && Example().Sane() && Example().NoSpace(URI)
    ensures Example().SchemeAt(URI, 0, 4) && Example().Search(URI, 0) == Some(0) && Example().Search(URI, 4) == Some(5)
    ensures forall i: nat :: 0 <= i < 4 ==> Judge(Example(), URI[i..]).Keep?
    ensures URI[5..] == "b://u:w@h" && Judge(Example(), URI[5..]).Put?
  {
    var cfg := Example();
    assert cfg.SchemeAt(URI, 0, 4) && cfg.SchemeAt(URI, 5, 6);
    RunMatches(cfg, URI, 0, 4, 0);
    RunMatches(cfg, URI, 5, 6, 5);
    NoWordNoMatch(cfg, URI, 4);
    SearchIs(cfg, URI, 4, 5);
    assert URI[5..] == "b://u:w@h";
    assert |"b://u:w@h"| == 9;
  }

  /** On its own, the password stays. */
  lemma AloneItLeaks()
    ensures Example().Sane() && ByToken(Example(), URI, 0) == URI
  {
    hide Example, Config.Search, Config.MatchAt, Config.SchemeAt, Judge, TokenFate, ByToken;
    ExampleMatches();
    OneToken(Example(), URI, 0);
    assert URI[0..] == URI;
    SearchedAgain(Example(), URI, 0, 0);
    AdvanceStep(0, 14);
    FateBeyond(Example(), URI, 14);
  }

  lemma DotsAreQuiet(dots: string)
    requires forall i :: 0 <= i < |dots| ==> dots[i] == '.'
    ensures Example().NoSpace(dots) && forall i: nat :: i < |dots| ==> !Example().MatchAt(dots, i)
  {
    forall i: nat | i < |dots|
      ensures !Example().MatchAt(dots, i)
    {
      NoWordNoMatch(Example(), dots, i);
    }
  }

  /** Behind nine other characters it is redacted. */
  lemma BehindNineItDoesNot()
    ensures Example().Sane()
    ensures ByToken(Example(), "........" + ([' '] + URI), 0)
         == "........" + ([' '] + ("jdbc:" + ("b://" + REPLACEMENT + ":" + REPLACEMENT + "@h")))
  {
    hide Config.Search, Config.MatchAt, Config.SchemeAt, Judge, TokenFate, ByToken;
    ExampleMatches();
    DotsAreQuiet("........");
    BehindQuiet(Example(), "........", ' ', URI);
    InnerMatchReached(Example(), URI, -9, 0, 4, 5);
    UniqueRemainder(9, 14, 0, 9);
    ExampleRedacted();
    UriScheme();
  }

  lemma UriScheme()
    ensures URI[..5] == "jdbc:"
  {
    assert |URI| == 14;
  }

  /** Behind twelve it is not: the search goes on inside the first scheme. */
  lemma BehindTwelveItLeaks()
    ensures Example().Sane() && ByToken(Example(), "..........." + ([' '] + URI), 0) == "..........." + ([' '] + URI)
  {
    hide Config.Search, Config.MatchAt, Config.SchemeAt, Judge, TokenFate, ByToken;
    ExampleMatches();
    DotsAreQuiet("...........");
    BehindQuiet(Example(), "...........", ' ', URI);
    InnerMatchReached(Example(), URI, -12, 0, 4, 5);
    UniqueRemainder(12, 14, 0, 12);
  }

  lemma OccursAt(text: string, c: char, j: nat)
    ensures Occurs(text, [c], j) <==> j < |text| && text[j] == c
  {
    assert j < |text| ==> text[j..j + 1] == [text[j]];
  }

  /** The redacted URI. */
  lemma ExampleRedacted()
    ensures Judge(Example(), "b://u:w@h") == Put("b://" + REPLACEMENT + ":" + REPLACEMENT + "@h")
  {
    hide Judge, Replace;
    assert "b://u:w@h" == "b://" + "u" + ":" + "w" + "@h";
    forall j: nat
      ensures Occurs("b://u:w@h", "u", j) ==> j == 4
      ensures Occurs("b://$encrypted$:w@h", "w", j) ==> j == 16
    {
      OccursAt("b://u:w@h", 'u', j);
      OccursAt("b://$encrypted$:w@h", 'w', j);
    }
    assert "b://$encrypted$:w@h" == "b://" + "$encrypted$" + ":" + "w" + "@h";
    CredentialsReplaced(Example(), "b://", "u", "w", "@h");
  }

  // ----- The loop -----

  /** When a search in `done + rest`, of which `done` is never looked at again, finds nothing,
      neither does one in `rest`. */
  lemma RoundIsOver(cfg: Config, done: string, rest: string, index: nat)
    requires cfg.Sane() && (index >= |done| || (rest == "" && index + 1 == |done|))
    requires cfg.Search(done + rest, index).None?
    ensures Clean(cfg, rest, index - |done|) == rest
  {
    hide Config.MatchAt, Judge, Config.RunEnd, Config.Search, Clean, Config.Sane;
    if index < |done| {
      LastCharacter(cfg, rest, 0);
      SearchIsNone(cfg, rest, 0);
    } else {
      SearchBehind(cfg, done, rest, index);
    }
    CleanNothing(cfg, rest, index - |done|);
  }

  /** What it finds it finds in `rest`. */
  lemma RoundFinds(cfg: Config, done: string, rest: string, index: nat, start: nat)
    requires cfg.Sane() && (index >= |done| || (rest == "" && index + 1 == |done|))
    requires cfg.Search(done + rest, index) == Some(start)
    ensures |done| <= index <= start && cfg.Search(rest, index - |done|) == Some(start - |done|)
    ensures start - |done| + 2 <= cfg.RunEnd(rest, start - |done|)
    ensures cfg.RunEnd(done + rest, start) == |done| + cfg.RunEnd(rest, start - |done|)
  {
    hide Config.MatchAt, Judge, Config.RunEnd, Config.Search, Clean, Config.Sane;
    if index < |done| {
      LastCharacter(cfg, done + rest, index);
      SearchIsNone(cfg, done + rest, index);
    } else {
      SearchBehind(cfg, done, rest, index);
      Found(cfg, rest, index - |done|);
      RunEndBehind(cfg, done, rest, start - |done|);
    }
  }

  lemma LastCharacter(cfg: Config, text: string, from: nat)
    requires from + 1 >= |text|
    ensures forall i: nat :: from <= i ==> !cfg.MatchAt(text, i)
  {
  }

  lemma RunHasNoSpace(cfg: Config, text: string, i: nat, end: nat)
    requires i < |text| && end == cfg.RunEnd(text, i)
    ensures cfg.NoSpace(text[i..end])
  {
  }

  lemma RoundKeeps(cfg: Config, done: string, rest: string, index: nat, start: nat)
    requires cfg.Sane() && (index >= |done| || (rest == "" && index + 1 == |done|))
    requires cfg.Search(done + rest, index) == Some(start)
    requires Judge(cfg, (done + rest)[start..cfg.RunEnd(done + rest, start)]).Keep?
    ensures index >= |done| && index <= start && start + 2 <= cfg.RunEnd(done + rest, start)
    ensures Clean(cfg, rest, index - |done|)
         == Clean(cfg, rest, index + (cfg.RunEnd(done + rest, start) - start) - |done|)
  {
    hide Config.MatchAt, Config.RunEnd, Config.Search, Config.Sane, Judge, Clean;
    RoundFinds(cfg, done, rest, index, start);
    var s, end := start - |done|, cfg.RunEnd(rest, start - |done|);
    assert (done + rest)[start..|done| + end] == rest[s..end];
    CleanFound(cfg, rest, index - |done|, s);
  }

  lemma RoundPuts(cfg: Config, done: string, rest: string, index: nat, start: nat, t: string)
    returns (more: string, after: string)
    requires cfg.Sane() && (index >= |done| || (rest == "" && index + 1 == |done|))
    requires cfg.Search(done + rest, index) == Some(start)
    requires Judge(cfg, (done + rest)[start..cfg.RunEnd(done + rest, start)]) == Put(t)
    ensures index <= start && start + 2 <= cfg.RunEnd(done + rest, start) && t != ""
    ensures more == (done + rest)[..start] + t && after == (done + rest)[cfg.RunEnd(done + rest, start)..]
    ensures more + Clean(cfg, after, 0) == done + Clean(cfg, rest, index - |done|)
  {
    hide Config.MatchAt, Config.RunEnd, Config.Search, Config.Sane, Judge, Clean;
    RoundFinds(cfg, done, rest, index, start);
    var s, end := start - |done|, cfg.RunEnd(rest, start - |done|);
    assert (done + rest)[start..|done| + end] == rest[s..end];
    CleanFound(cfg, rest, index - |done|, s);
    RunHasNoSpace(cfg, rest, s, end);
    JudgeNoSpace(cfg, rest[s..end]);
    more, after := done + rest[..s] + t, rest[end..];
    assert more + Clean(cfg, after, 0) == done + (rest[..s] + t + Clean(cfg, after, 0));
  }

  lemma CleanEmpty(cfg: Config)
    requires cfg.Sane()
    ensures Clean(cfg, "", 0) == "" && Clean(cfg, "", -1) == ""
  {
    SearchIsNone(cfg, "", 0);
  }

  /** The cleaner.  It always terminates, although the text may grow: what is left to scan
      shrinks in every round. */
  method RemoveSensitive(cfg: Config, cleartext: string) returns (redacted: string)
    requires cfg.Sane()
    ensures redacted == ByToken(cfg, cleartext, 0)
  {
    hide Config.MatchAt, Judge, Config.RunEnd, Config.Search, Clean, ByToken, Fails;
    redacted := cleartext;
    var index: nat := 0;
    ghost var done, rest := "", cleartext;
    CleanIsByToken(cfg, cleartext, 0);
    while true
      invariant redacted == done + rest && (index >= |done| || (rest == "" && index + 1 == |done|))
      invariant done + Clean(cfg, rest, index - |done|) == ByToken(cfg, cleartext, 0)
      decreases |redacted| - index
    {
      var found := cfg.Search(redacted, index);
      if found.None? {
        RoundIsOver(cfg, done, rest, index);
        break;
      }
      var start := found.value;
      var end := cfg.RunEnd(redacted, start);
      match Judge(cfg, redacted[start..end])
      case Keep =>
        RoundKeeps(cfg, done, rest, index, start);
        index := index + (end - start);
      case Put(t) =>
        var failed := Fails(cfg, redacted[start..end]);
        done, rest := RoundPuts(cfg, done, rest, index, start, t);
        redacted := redacted[..start] + t + redacted[end..];
        index := start + |t|;
        if !failed && index >= |redacted| {
          CleanEmpty(cfg);
          index := |redacted| - 1;
        }
    }
  }
}

/** The GitHub repo tracker: keeps, per tracked repo, the commits of the last
    seven days, the avatars of their authors and, when the week was quiet, the
    top contributors of all time. The GitHub API is a pair of functions from
    URL to response; the working directory is a tree of nested maps
    user -> owner -> repo -> record. */
module GithubTracker {
  import opened Wrappers
  import opened Text

  // ---------------------------------------------------------------- records

  datatype Commit = Commit(sha: string, timestamp: string, username: string)

  datatype Contributor = Contributor(username: string, numCommits: int)

  /** The persisted record of one tracked repo. */
  datatype Repo = Repo(
    owner: string, name: string, user: string,
    recentCommits: seq<Commit>,      // newest first
    topContributors: seq<Contributor>,
    newContributors: seq<string>,
    avatars: map<string, string>)    // username -> avatar URL

  function NewRepo(user: string, owner: string, name: string): Repo {
    Repo(owner, name, user, [], [], [], map[])
  }

  /** One element of the JSON list the commits endpoint returns. */
  datatype ApiAuthor = ApiAuthor(login: string, avatarUrl: string)
  datatype ApiCommit = ApiCommit(sha: Option<string>, date: string, author: ApiAuthor)

  /** One element of the JSON list the contributors endpoint returns. */
  datatype ApiContributor = ApiContributor(login: string, contributions: int, avatarUrl: string)

  /** A response of the commits endpoint: its Link header, if any, and its body. */
  datatype Page = Page(link: Option<string>, commits: seq<ApiCommit>)

  datatype GitHub = GitHub(commitsAt: string -> Page, contributorsAt: string -> seq<ApiContributor>)

  datatype TrackerError =
    | TrackerError(message: string)   // raised through RepoTracker.error
    | PageLimit                       // more pages than the model follows

  /** One week, in the seconds `now` and the parsed timestamps are counted in. */
  const Week: int := 7 * 24 * 60 * 60

  // ---------------------------------------------------------------- new commits

  /** `date[:-1]`: the timestamp without its trailing 'Z'. */
  function ChopLast(s: string): string {
    if |s| == 0 then "" else s[..|s| - 1]
  }

  function ToCommit(r: ApiCommit): Commit
    requires r.sha.Some?
  {
    Commit(r.sha.value, ChopLast(r.date), r.author.login)
  }

  /** A record with a hash equal to the newest hash already stored. */
  predicate IsBoundary(r: ApiCommit, lastKnown: Option<string>) {
    r.sha.Some? && r.sha == lastKnown
  }

  /** The commits the scan of `_update_latest_commits` collects: records without
      a hash are skipped, and the first record with the last known hash ends it. */
  function NewCommits(records: seq<ApiCommit>, lastKnown: Option<string>): seq<Commit> {
    if records == [] then []
    else if records[0].sha.None? then NewCommits(records[1..], lastKnown)
    else if IsBoundary(records[0], lastKnown) then []
    else [ToCommit(records[0])] + NewCommits(records[1..], lastKnown)
  }

  /** The avatar map as the same scan leaves it: each collected record sets its
      author's avatar, later records overriding earlier ones. */
  function ScanAvatars(records: seq<ApiCommit>, lastKnown: Option<string>, avatars: map<string, string>): map<string, string> {
    if records == [] then avatars
    else if records[0].sha.None? then ScanAvatars(records[1..], lastKnown, avatars)
    else if IsBoundary(records[0], lastKnown) then avatars
    else ScanAvatars(records[1..], lastKnown, avatars[records[0].author.login := records[0].author.avatarUrl])
  }

  /** Reference definition: the records that carry a hash, each turned into a commit. */
  function Stored(records: seq<ApiCommit>): seq<Commit> {
    if records == [] then []
    else (if records[0].sha.Some? then [ToCommit(records[0])] else []) + Stored(records[1..])
  }

  /** Position of the first boundary record, or the length when there is none. */
  function StopIndex(records: seq<ApiCommit>, lastKnown: Option<string>): (k: nat)
    ensures k <= |records|
    ensures forall i :: 0 <= i < k ==> !IsBoundary(records[i], lastKnown)
    ensures k < |records| ==> IsBoundary(records[k], lastKnown)
  {
    if records == [] then 0
    else if IsBoundary(records[0], lastKnown) then 0
    else StopIndex(records[1..], lastKnown) + 1
  }

  /** The collected commits are exactly the hashed records before the first
      boundary record. */
  lemma {:induction false} NewCommitsBeforeBoundary(records: seq<ApiCommit>, lastKnown: Option<string>)
    ensures NewCommits(records, lastKnown) == Stored(records[..StopIndex(records, lastKnown)])
  {
    if records != [] {
      NewCommitsBeforeBoundary(records[1..], lastKnown);
      if !IsBoundary(records[0], lastKnown) {
        var k := StopIndex(records[1..], lastKnown);
        assert records[..k + 1][1..] == records[1..][..k];
      }
    }
  }

  /** On a first sync there is nothing to stop at: every hashed record is kept. */
  lemma FirstSyncKeepsAll(records: seq<ApiCommit>)
    ensures NewCommits(records, None) == Stored(records)
  {
    NewCommitsBeforeBoundary(records, None);
    assert records[..|records|] == records;
  }

  /** Every stored commit comes from a record with that hash, the author's login
      and the author date less its last character. */
  lemma {:induction false} StoredFields(records: seq<ApiCommit>, c: Commit)
    requires c in Stored(records)
    ensures exists i :: 0 <= i < |records| && records[i].sha == Some(c.sha)
                        && c.timestamp == ChopLast(records[i].date) && c.username == records[i].author.login
  {
    if records[0].sha.Some? && c == ToCommit(records[0]) {
      assert records[0].sha == Some(c.sha);
    } else {
      StoredFields(records[1..], c);
      var i :| 0 <= i < |records[1..]| && records[1..][i].sha == Some(c.sha)
               && c.timestamp == ChopLast(records[1..][i].date) && c.username == records[1..][i].author.login;
      assert records[i + 1] == records[1..][i];
    }
  }

  /** The scan adds a key exactly for the authors of the collected commits. */
  lemma {:induction false} ScanAvatarsKeys(records: seq<ApiCommit>, lastKnown: Option<string>, avatars: map<string, string>, u: string)
    ensures u in ScanAvatars(records, lastKnown, avatars) <==>
            u in avatars || exists c :: c in NewCommits(records, lastKnown) && c.username == u
  {
    if records != [] && records[0].sha.Some? && !IsBoundary(records[0], lastKnown) {
      var r := records[0];
      ScanAvatarsKeys(records[1..], lastKnown, avatars[r.author.login := r.author.avatarUrl], u);
      var rest := NewCommits(records[1..], lastKnown);
      assert NewCommits(records, lastKnown) == [ToCommit(r)] + rest;
      if (exists c :: c in rest && c.username == u) {
        var c :| c in rest && c.username == u;
        assert c in NewCommits(records, lastKnown);
      }
    } else if records != [] && records[0].sha.None? {
      ScanAvatarsKeys(records[1..], lastKnown, avatars, u);
    }
  }

  method CollectNewCommits(records: seq<ApiCommit>, lastKnown: Option<string>, avatars: map<string, string>)
    returns (commits: seq<Commit>, avatarsOut: map<string, string>)
    ensures commits == NewCommits(records, lastKnown)
    ensures avatarsOut == ScanAvatars(records, lastKnown, avatars)
  {
    commits, avatarsOut := [], avatars;
    var i := 0;
    while i < |records|
      invariant 0 <= i <= |records|
      invariant NewCommits(records, lastKnown) == commits + NewCommits(records[i..], lastKnown)
      invariant ScanAvatars(records, lastKnown, avatars) == ScanAvatars(records[i..], lastKnown, avatarsOut)
    {
      var c := records[i];
      assert records[i..][1..] == records[i + 1..];
      if c.sha.None? {
        i := i + 1;
        continue;
      }
      if c.sha == lastKnown {
        break;
      }
      avatarsOut := avatarsOut[c.author.login := c.author.avatarUrl];
      commits := commits + [ToCommit(c)];
      i := i + 1;
    }
    if i == |records| {
      assert records[i..] == [];
    }
  }

  // ---------------------------------------------------------------- window

  /** Pops commits off the tail while the last one is older than `since`. */
  function TrimExpired(cs: seq<Commit>, since: int, parse: string -> int): (r: seq<Commit>)
    ensures |r| <= |cs| && r == cs[..|r|]
    ensures r != [] ==> parse(r[|r| - 1].timestamp) >= since
    ensures forall i :: |r| <= i < |cs| ==> parse(cs[i].timestamp) < since
  {
    if cs != [] && parse(cs[|cs| - 1].timestamp) < since then TrimExpired(cs[..|cs| - 1], since, parse) else cs
  }

  predicate NewestFirst(cs: seq<Commit>, parse: string -> int) {
    forall i, j :: 0 <= i < j < |cs| ==> parse(cs[i].timestamp) >= parse(cs[j].timestamp)
  }

  /** On a newest-first list the trimmed window keeps exactly the commits that
      are not older than `since`. */
  lemma TrimKeepsExactlyRecent(cs: seq<Commit>, since: int, parse: string -> int)
    requires NewestFirst(cs, parse)
    ensures var r := TrimExpired(cs, since, parse);
      forall i :: 0 <= i < |cs| ==> (i < |r| <==> parse(cs[i].timestamp) >= since)
  {
    var r := TrimExpired(cs, since, parse);
    forall i | 0 <= i < |r|
      ensures parse(cs[i].timestamp) >= since
    {
      assert cs[|r| - 1] == r[|r| - 1];
    }
  }

  method PopExpired(cs: seq<Commit>, since: int, parse: string -> int) returns (r: seq<Commit>)
    ensures r == TrimExpired(cs, since, parse)
  {
    r := cs;
    while r != [] && parse(r[|r| - 1].timestamp) < since
      invariant TrimExpired(r, since, parse) == TrimExpired(cs, since, parse)
    {
      r := r[..|r| - 1];
    }
  }

  function Usernames(cs: seq<Commit>): set<string> {
    set c | c in cs :: c.username
  }

  /** Deletes every avatar whose user is not in `valid`, one key at a time. */
  method PruneAvatars(avatars: map<string, string>, valid: set<string>) returns (r: map<string, string>)
    ensures r.Keys == avatars.Keys * valid
    ensures forall u :: u in r ==> r[u] == avatars[u]
  {
    r := avatars;
    var keys := avatars.Keys;
    while keys != {}
      invariant keys <= avatars.Keys
      invariant forall u :: u in r <==> u in avatars && (u in keys || u in valid)
      invariant forall u :: u in r ==> r[u] == avatars[u]
      decreases keys
    {
      var u :| u in keys;
      if u !in valid {
        r := r - {u};
      }
      keys := keys - {u};
    }
  }

  /** The newest hash already stored, where the scan of new commits stops. */
  function LastKnown(repo: Repo): Option<string> {
    if repo.recentCommits != [] then Some(repo.recentCommits[0].sha) else None
  }

  /** The week of commits after `_update_latest_commits`: new commits in front
      of the stored ones, expired ones popped off the tail. */
  function Window(repo: Repo, records: seq<ApiCommit>, since: int, parse: string -> int): seq<Commit> {
    TrimExpired(NewCommits(records, LastKnown(repo)) + repo.recentCommits, since, parse)
  }

  function WindowAvatars(repo: Repo, records: seq<ApiCommit>, since: int, parse: string -> int, avatars: map<string, string>): map<string, string> {
    var scanned := ScanAvatars(records, LastKnown(repo), avatars);
    var valid := Usernames(Window(repo, records, since, parse));
    map u | u in scanned && u in valid :: scanned[u]
  }

  /** The merged window is a prefix of new ++ stored commits whose oldest entry
      is within the week. */
  lemma {:induction false} WindowPrefix(repo: Repo, records: seq<ApiCommit>, since: int, parse: string -> int)
    ensures var merged := NewCommits(records, LastKnown(repo)) + repo.recentCommits;
      var w := Window(repo, records, since, parse);
      && w == merged[..|w|]
      && (w != [] ==> parse(w[|w| - 1].timestamp) >= since)
  {
  }

  /** When the merged commits are newest first, the window keeps exactly those
      not older than `since`. */
  lemma {:induction false} WindowExactlyRecent(repo: Repo, records: seq<ApiCommit>, since: int, parse: string -> int)
    requires NewestFirst(NewCommits(records, LastKnown(repo)) + repo.recentCommits, parse)
    ensures var merged := NewCommits(records, LastKnown(repo)) + repo.recentCommits;
      var w := Window(repo, records, since, parse);
      forall i :: 0 <= i < |merged| ==> (i < |w| <==> parse(merged[i].timestamp) >= since)
  {
    TrimKeepsExactlyRecent(NewCommits(records, LastKnown(repo)) + repo.recentCommits, since, parse);
  }

  /** Every avatar left belongs to the author of a kept commit and keeps the
      URL the scan gave it. */
  lemma {:induction false} WindowAvatarsOwned(repo: Repo, records: seq<ApiCommit>, since: int, parse: string -> int, avatars: map<string, string>)
    ensures var m := WindowAvatars(repo, records, since, parse, avatars);
      && m.Keys <= Usernames(Window(repo, records, since, parse))
      && forall u :: u in m ==> m[u] == ScanAvatars(records, LastKnown(repo), avatars)[u]
  {
  }

  // ---------------------------------------------------------------- top contributors

  function Min(a: int, b: int): int { if a < b then a else b }

  /** `contributors[:5]` as records. */
  function TopFive(api: seq<ApiContributor>): (r: seq<Contributor>)
    ensures |r| == Min(5, |api|)
    ensures forall i :: 0 <= i < |r| ==> r[i] == Contributor(api[i].login, api[i].contributions)
  {
    seq(Min(5, |api|), i requires 0 <= i < Min(5, |api|) => Contributor(api[i].login, api[i].contributions))
  }

  /** The avatar map after the first `n` contributors have added theirs. */
  function ContributorAvatars(api: seq<ApiContributor>, n: nat, avatars: map<string, string>): map<string, string>
    requires n <= |api|
  {
    if n == 0 then avatars else ContributorAvatars(api, n - 1, avatars)[api[n - 1].login := api[n - 1].avatarUrl]
  }

  /** The first `n` logins, as a set. */
  function Logins(api: seq<ApiContributor>, n: nat): set<string>
    requires n <= |api|
  {
    set i | 0 <= i < n :: api[i].login
  }

  lemma LoginsSnoc(api: seq<ApiContributor>, n: nat)
    requires 0 < n <= |api|
    ensures Logins(api, n) == Logins(api, n - 1) + {api[n - 1].login}
  {
  }

  lemma {:induction false} ContributorAvatarsKeys(api: seq<ApiContributor>, n: nat, avatars: map<string, string>)
    requires n <= |api|
    ensures ContributorAvatars(api, n, avatars).Keys == avatars.Keys + Logins(api, n)
  {
    if n > 0 {
      ContributorAvatarsKeys(api, n - 1, avatars);
      LoginsSnoc(api, n);
    }
  }

  /** A contributor's avatar is the one of its last entry among the first `n`. */
  lemma {:induction false} ContributorAvatarValue(api: seq<ApiContributor>, n: nat, avatars: map<string, string>, i: nat)
    requires i < n <= |api|
    requires forall j :: i < j < n ==> api[j].login != api[i].login
    ensures api[i].login in ContributorAvatars(api, n, avatars)
    ensures ContributorAvatars(api, n, avatars)[api[i].login] == api[i].avatarUrl
  {
    if i < n - 1 {
      ContributorAvatarValue(api, n - 1, avatars, i);
    }
  }

  /** `_update_top_contributors`: always cleared; filled with the first five
      contributors, and their avatars, only when there are no recent commits. */
  method UpdateTopContributors(repo: Repo, api: seq<ApiContributor>, avatars: map<string, string>)
    returns (repo': Repo, avatars': map<string, string>)
    ensures repo' == repo.(topContributors := if repo.recentCommits == [] then TopFive(api) else [])
    ensures avatars' == if repo.recentCommits == [] then ContributorAvatars(api, Min(5, |api|), avatars) else avatars
  {
    repo' := repo.(topContributors := []);
    avatars' := avatars;
    if repo.recentCommits != [] {
      return;
    }
    var n := Min(5, |api|);
    var i := 0;
    while i < n
      invariant 0 <= i <= n
      invariant repo' == repo.(topContributors := TopFive(api)[..i])
      invariant avatars' == ContributorAvatars(api, i, avatars)
    {
      var contrib := api[i];
      repo' := repo'.(topContributors := repo'.topContributors + [Contributor(contrib.login, contrib.contributions)]);
      avatars' := avatars'[contrib.login := contrib.avatarUrl];
      assert TopFive(api)[..i + 1] == TopFive(api)[..i] + [TopFive(api)[i]];
      i := i + 1;
    }
    assert TopFive(api)[..n] == TopFive(api);
  }

  // ---------------------------------------------------------------- Link header

  datatype Rel = Next | Last | Prev | First

  function RelName(r: Rel): string {
    match r
    case Next => "next"
    case Last => "last"
    case Prev => "prev"
    case First => "first"
  }

  /** First position at or after `i` holding `c`, or |s|. */
  function IndexFrom(s: string, c: char, i: nat): (j: nat)
    requires i <= |s|
    ensures i <= j <= |s|
    ensures j < |s| ==> s[j] == c
    ensures forall k :: i <= k < j ==> s[k] != c
    decreases |s| - i
  {
    if i == |s| || s[i] == c then i else IndexFrom(s, c, i + 1)
  }

  /** One attempt of the pattern `<([^>]+)>; rel="(next|last)"` at the start of
      `s`: the URL, the rel and the length of the match. */
  function MatchLink(s: string): (r: Option<(string, string, nat)>)
    ensures r.Some? ==> 0 < r.value.2 <= |s|
  {
    if s == [] || s[0] != '<' then None
    else
      var j := IndexFrom(s, '>', 1);
      if j == 1 || j == |s| then None
      else if StartsWith(s[j..], ">; rel=\"next\"") then Some((s[1..j], "next", j + 13))
      else if StartsWith(s[j..], ">; rel=\"last\"") then Some((s[1..j], "last", j + 13))
      else None
  }

  /** `re.findall` of that pattern: left to right, resuming after each match. */
  function FindLinks(s: string): seq<(string, string)>
    decreases |s|
  {
    if s == [] then []
    else match MatchLink(s)
      case Some(m) => [(m.0, m.1)] + FindLinks(s[m.2..])
      case None => FindLinks(s[1..])
  }

  /** `{rel: url for url, rel in matches}`: a later match overrides an earlier one. */
  function RelMap(ms: seq<(string, string)>): map<string, string> {
    if ms == [] then map[] else RelMap(ms[..|ms| - 1])[ms[|ms| - 1].1 := ms[|ms| - 1].0]
  }

  function Lookup(m: map<string, string>, k: string): Option<string> {
    if k in m then Some(m[k]) else None
  }

  /** `_get_next_last_url`: the next and last URLs of a Link header. */
  function NextLast(link: Option<string>): (Option<string>, Option<string>) {
    if link.None? then (None, None)
    else
      var rels := RelMap(FindLinks(link.value));
      (Lookup(rels, "next"), Lookup(rels, "last"))
  }

  /** How a server writes a Link header: comma-separated `<url>; rel="..."` entries. */
  function LinkEntry(url: string, rel: Rel): string {
    "<" + EntryBody(url, rel)
  }

  function EntryBody(url: string, rel: Rel): string {
    url + ">; rel=\"" + RelName(rel) + "\""
  }

  lemma DropHead<T>(x: seq<T>, a: seq<T>, b: seq<T>)
    requires |x| == 1
    ensures (x + a + b)[1..] == a + b
  {
  }

  function LinkHeader(es: seq<(string, Rel)>): string {
    Join(Entries(es), ", ")
  }

  predicate PlainUrl(u: string) {
    u != "" && '<' !in u && '>' !in u
  }

  /** The URL of the last entry with the given rel. */
  function LastWithRel(es: seq<(string, Rel)>, rel: Rel): Option<string> {
    if es == [] then None
    else if es[|es| - 1].1 == rel then Some(es[|es| - 1].0)
    else LastWithRel(es[..|es| - 1], rel)
  }

  /** The next/last entries of a header, in order, as findall reports them. */
  function NextLastEntries(es: seq<(string, Rel)>): seq<(string, string)> {
    if es == [] then [] else NextLastOf(es[0]) + NextLastEntries(es[1..])
  }

  /** What findall reports for one entry: its URL and rel when the rel is next or last. */
  function NextLastOf(e: (string, Rel)): seq<(string, string)> {
    if e.1 == Next || e.1 == Last then [(e.0, RelName(e.1))] else []
  }

  lemma ConcatAssoc<T>(a: seq<T>, b: seq<T>, c: seq<T>)
    ensures a + (b + c) == (a + b) + c
  {
  }

  lemma {:induction false} SkipNoAngle(x: string, t: string)
    requires '<' !in x
    ensures FindLinks(x + t) == FindLinks(t)
  {
    if x != [] {
      assert (x + t)[0] == x[0];
      assert (x + t)[1..] == x[1..] + t;
      SkipNoAngle(x[1..], t);
    } else {
      assert x + t == t;
    }
  }

  lemma EntryShape(u: string, r: Rel, t: string)
    requires PlainUrl(u)
    ensures var s := LinkEntry(u, r) + t;
      && s[0] == '<' && s[1..1 + |u|] == u
      && IndexFrom(s, '>', 1) == 1 + |u|
      && s[1 + |u|..] == ">; rel=\"" + RelName(r) + "\"" + t
  {
    var s := LinkEntry(u, r) + t;
    assert s == "<" + u + (">; rel=\"" + RelName(r) + "\"" + t);
    var j := IndexFrom(s, '>', 1);
    assert s[1 + |u|] == '>';
    assert forall k :: 1 <= k < 1 + |u| ==> s[k] == u[k - 1];
  }

  /** A next or last entry matches in full. */
  lemma MatchEntryRel(u: string, r: Rel, t: string)
    requires PlainUrl(u)
    requires r == Next || r == Last
    ensures MatchLink(LinkEntry(u, r) + t) == Some((u, RelName(r), |u| + 14))
  {
    var s := LinkEntry(u, r) + t;
    EntryShape(u, r, t);
    var tail := s[1 + |u|..];
    var lit := ">; rel=\"" + RelName(r) + "\"";
    assert tail[..13] == lit;
    if r == Next {
      assert StartsWith(tail, ">; rel=\"next\"");
    } else {
      assert tail[8] == 'l';
      assert StartsWith(tail, ">; rel=\"last\"");
    }
  }

  /** A prev or first entry does not match at its start. */
  lemma MatchEntryOther(u: string, r: Rel, t: string)
    requires PlainUrl(u)
    requires r == Prev || r == First
    ensures MatchLink(LinkEntry(u, r) + t) == None
  {
    var s := LinkEntry(u, r) + t;
    EntryShape(u, r, t);
    var tail := s[1 + |u|..];
    assert tail[8] == RelName(r)[0];
  }

  lemma {:induction false} FindLinksEntryRel(u: string, r: Rel, t: string)
    requires PlainUrl(u)
    requires r == Next || r == Last
    ensures FindLinks(LinkEntry(u, r) + t) == [(u, RelName(r))] + FindLinks(t)
  {
    var s := LinkEntry(u, r) + t;
    MatchEntryRel(u, r, t);
    assert s[|u| + 14..] == t;
  }

  lemma {:induction false} FindLinksEntryOther(u: string, r: Rel, t: string)
    requires PlainUrl(u)
    requires r == Prev || r == First
    ensures FindLinks(LinkEntry(u, r) + t) == FindLinks(t)
  {
    MatchEntryOther(u, r, t);
    DropHead("<", EntryBody(u, r), t);
    SkipNoAngle(EntryBody(u, r), t);
  }

  lemma FindLinksEntry(u: string, r: Rel, t: string)
    requires PlainUrl(u)
    ensures FindLinks(LinkEntry(u, r) + t) ==
      (if r == Next || r == Last then [(u, RelName(r))] else []) + FindLinks(t)
  {
    if r == Next || r == Last {
      FindLinksEntryRel(u, r, t);
    } else {
      FindLinksEntryOther(u, r, t);
      assert [] + FindLinks(t) == FindLinks(t);
    }
  }

  function Entries(es: seq<(string, Rel)>): (r: seq<string>)
    ensures |r| == |es|
  {
    seq(|es|, i requires 0 <= i < |es| => LinkEntry(es[i].0, es[i].1))
  }

  lemma EntriesTail(es: seq<(string, Rel)>)
    requires es != []
    ensures Entries(es)[0] == LinkEntry(es[0].0, es[0].1)
    ensures Entries(es)[1..] == Entries(es[1..])
  {
  }

  lemma JoinHead(xs: seq<string>, sep: string)
    requires |xs| >= 2
    ensures Join(xs, sep) == xs[0] + (sep + Join(xs[1..], sep))
  {
  }

  lemma {:induction false} FindLinksHeader(es: seq<(string, Rel)>)
    requires forall i :: 0 <= i < |es| ==> PlainUrl(es[i].0)
    ensures FindLinks(LinkHeader(es)) == NextLastEntries(es)
  {
    if es == [] {
      assert LinkHeader(es) == "";
    } else {
      var xs := Entries(es);
      EntriesTail(es);
      var e := xs[0];
      if |es| == 1 {
        assert LinkHeader(es) == e + "";
        FindLinksEntry(es[0].0, es[0].1, "");
        assert es[1..] == [];
      } else {
        FindLinksHeader(es[1..]);
        var rest := LinkHeader(es[1..]);
        JoinHead(xs, ", ");
        assert LinkHeader(es) == e + (", " + rest);
        FindLinksEntry(es[0].0, es[0].1, ", " + rest);
        SkipNoAngle(", ", rest);
      }
    }
  }

  lemma {:induction false} NextLastEntriesSnoc(es: seq<(string, Rel)>, e: (string, Rel))
    ensures NextLastEntries(es + [e]) == NextLastEntries(es) + NextLastOf(e)
  {
    if es == [] {
      assert [e][1..] == [];
      assert NextLastOf(e) + [] == NextLastOf(e);
    } else {
      assert (es + [e])[0] == es[0];
      assert (es + [e])[1..] == es[1..] + [e];
      NextLastEntriesSnoc(es[1..], e);
      ConcatAssoc(NextLastOf(es[0]), NextLastEntries(es[1..]), NextLastOf(e));
    }
  }

  lemma {:induction false} RelMapOfEntries(es: seq<(string, Rel)>, rel: Rel)
    requires rel == Next || rel == Last
    ensures Lookup(RelMap(NextLastEntries(es)), RelName(rel)) == LastWithRel(es, rel)
  {
    if es != [] {
      var init := es[..|es| - 1];
      var e := es[|es| - 1];
      assert es == init + [e];
      NextLastEntriesSnoc(init, e);
      RelMapOfEntries(init, rel);
      var ms := NextLastEntries(es);
      if e.1 == Next || e.1 == Last {
        assert ms[..|ms| - 1] == NextLastEntries(init);
      } else {
        assert ms == NextLastEntries(init);
      }
    }
  }

  /** Reading back a header written from entries with plain URLs gives the URL
      of the last "next" entry and of the last "last" entry; no header gives
      neither. */
  lemma NextLastOfHeader(es: seq<(string, Rel)>)
    requires forall i :: 0 <= i < |es| ==> PlainUrl(es[i].0)
    ensures NextLast(Some(LinkHeader(es))) == (LastWithRel(es, Next), LastWithRel(es, Last))
    ensures NextLast(None) == (None, None)
  {
    FindLinksHeader(es);
    RelMapOfEntries(es, Next);
    RelMapOfEntries(es, Last);
  }

  // ---------------------------------------------------------------- pagination

  function GithubUrl(owner: string, repo: string, what: string): string {
    "https://api.github.com/repos/" + owner + "/" + repo + "/" + what
  }

  function AuthorArgs(author: Option<string>): seq<string> {
    if author.Some? && author.value != "" then ["author=" + author.value] else []
  }

  function SinceArgs(since: Option<string>): seq<string> {
    if since.Some? then ["since=" + since.value] else []
  }

  /** The first URL `_get_github_commits` requests. An empty author is falsy and
      left out. */
  function CommitsUrl(owner: string, repo: string, author: Option<string>, since: Option<string>): string {
    GithubUrl(owner, repo, "commits") + "?" + Join(["per_page=100"] + AuthorArgs(author) + SinceArgs(since), "&")
  }

  lemma Join2(x: string, y: string, sep: string)
    ensures Join([x, y], sep) == x + sep + y
  {
    assert [x, y][1..] == [y];
  }

  lemma Join3(x: string, y: string, z: string, sep: string)
    ensures Join([x, y, z], sep) == x + sep + (y + sep + z)
  {
    assert [x, y, z][1..] == [y, z];
    Join2(y, z, sep);
  }

  /** "&" and the argument, or nothing. */
  function Arg(xs: seq<string>): string {
    if xs == [] then "" else "&" + xs[0]
  }

  lemma JoinBoth(p: string, a: seq<string>, s: seq<string>)
    requires |a| == 1 && |s| == 1
    ensures Join([p] + a + s, "&") == p + Arg(a) + Arg(s)
  {
    assert [p] + a + s == [p, a[0], s[0]];
    Join3(p, a[0], s[0], "&");
    ConcatAssoc(p, "&" + a[0], "&" + s[0]);
  }

  lemma JoinOne(p: string, a: seq<string>, s: seq<string>)
    requires |a| + |s| == 1
    ensures Join([p] + a + s, "&") == p + Arg(a) + Arg(s)
  {
    var x := if a != [] then a[0] else s[0];
    assert [p] + a + s == [p, x];
    Join2(p, x, "&");
    assert Arg(a) + Arg(s) == "&" + x;
  }

  lemma JoinArgs(p: string, a: seq<string>, s: seq<string>)
    requires |a| <= 1 && |s| <= 1
    ensures Join([p] + a + s, "&") == p + Arg(a) + Arg(s)
  {
    if a != [] && s != [] {
      JoinBoth(p, a, s);
    } else if a != [] || s != [] {
      JoinOne(p, a, s);
    } else {
      assert [p] + a + s == [p];
    }
  }

  /** The first URL is the commits endpoint, then `?per_page=100`, then
      `&author=...` and `&since=...` when they are given. */
  lemma CommitsUrlShape(owner: string, repo: string, author: Option<string>, since: Option<string>)
    ensures CommitsUrl(owner, repo, author, since) ==
      GithubUrl(owner, repo, "commits") + "?" + ("per_page=100" + Arg(AuthorArgs(author)) + Arg(SinceArgs(since)))
    ensures Arg(AuthorArgs(author)) == if author.Some? && author.value != "" then "&author=" + author.value else ""
    ensures Arg(SinceArgs(since)) == if since.Some? then "&since=" + since.value else ""
  {
    JoinArgs("per_page=100", AuthorArgs(author), SinceArgs(since));
  }

  /** `while url:` — a missing or empty URL ends the loop. */
  predicate Truthy(u: Option<string>) { u.Some? && u.value != "" }

  /** Whether some record of a page ends the scan of new commits. */
  predicate HoldsBoundary(records: seq<ApiCommit>, lastKnown: Option<string>) {
    StopIndex(records, lastKnown) < |records|
  }

  /** The URLs the pagination loop requests, starting at `url` with `lastUrl`
      the last URL advertised so far. The generator requests a page only when
      its consumer asks for a further record, and a consumer that breaks at the
      record hashed `stop` asks for none once a page holding it has been read;
      with `stop` None the generator is drained. None when more than `fuel`
      pages would be requested. */
  function Visited(api: GitHub, url: Option<string>, lastUrl: Option<string>, stop: Option<string>, fuel: nat): Option<seq<string>>
    decreases fuel
  {
    if !Truthy(url) then Some([])
    else if fuel == 0 then None
    else if url == lastUrl || HoldsBoundary(api.commitsAt(url.value).commits, stop) then Some([url.value])
    else
      var nl := NextLast(api.commitsAt(url.value).link);
      match Visited(api, nl.0, nl.1, stop, fuel - 1)
      case None => None
      case Some(rest) => Some([url.value] + rest)
  }

  /** The records of the given pages, page by page. */
  function Records(api: GitHub, urls: seq<string>): seq<ApiCommit> {
    if urls == [] then [] else Records(api, urls[..|urls| - 1]) + api.commitsAt(urls[|urls| - 1]).commits
  }

  function NextOf(api: GitHub, u: string): Option<string> { NextLast(api.commitsAt(u).link).0 }
  function LastOf(api: GitHub, u: string): Option<string> { NextLast(api.commitsAt(u).link).1 }

  /** The last URL advertised before the k-th request. */
  function AdvertisedBefore(api: GitHub, vs: seq<string>, lastUrl: Option<string>, k: nat): Option<string>
    requires k <= |vs|
  {
    if k == 0 then lastUrl else LastOf(api, vs[k - 1])
  }

  /** The loop follows "next" links from the first URL; it goes on from a page
      only when that page is not the last one advertised before it and holds no
      record hashed `stop`, and it ends on a page that is or does, or on a page
      without a next link. */
  lemma {:induction false} VisitedChain(api: GitHub, url: Option<string>, lastUrl: Option<string>, stop: Option<string>, fuel: nat)
    requires Truthy(url) && Visited(api, url, lastUrl, stop, fuel).Some?
    ensures var vs := Visited(api, url, lastUrl, stop, fuel).value;
      && |vs| >= 1 && vs[0] == url.value
      && (forall k :: 0 <= k < |vs| - 1 ==>
            && Some(vs[k]) != AdvertisedBefore(api, vs, lastUrl, k)
            && !HoldsBoundary(api.commitsAt(vs[k]).commits, stop)
            && Some(vs[k + 1]) == NextOf(api, vs[k]))
      && (|| Some(vs[|vs| - 1]) == AdvertisedBefore(api, vs, lastUrl, |vs| - 1)
          || HoldsBoundary(api.commitsAt(vs[|vs| - 1]).commits, stop)
          || !Truthy(NextOf(api, vs[|vs| - 1])))
    decreases fuel
  {
    var vs := Visited(api, url, lastUrl, stop, fuel).value;
    if url != lastUrl && !HoldsBoundary(api.commitsAt(url.value).commits, stop) {
      var nl := NextLast(api.commitsAt(url.value).link);
      if Truthy(nl.0) {
        VisitedChain(api, nl.0, nl.1, stop, fuel - 1);
        var rest := Visited(api, nl.0, nl.1, stop, fuel - 1).value;
        assert vs == [url.value] + rest;
        forall k | 1 <= k <= |rest|
          ensures AdvertisedBefore(api, vs, lastUrl, k) == AdvertisedBefore(api, rest, nl.1, k - 1)
        {
          if k > 1 {
            assert vs[k - 1] == rest[k - 2];
          }
        }
        forall k | 0 <= k < |vs| - 1
          ensures && Some(vs[k]) != AdvertisedBefore(api, vs, lastUrl, k)
                  && !HoldsBoundary(api.commitsAt(vs[k]).commits, stop)
                  && Some(vs[k + 1]) == NextOf(api, vs[k])
        {
          if k > 0 {
            assert vs[k] == rest[k - 1] && vs[k + 1] == rest[k];
          }
        }
      } else {
        assert vs == [url.value];
      }
    }
  }

  ghost function Prepend(xs: seq<string>, r: Option<seq<string>>): Option<seq<string>> {
    if r.None? then None else Some(xs + r.value)
  }

  /** Where the loop goes after requesting `url`: nowhere once the consumer
      has stopped asking for records. */
  function Advance(api: GitHub, url: string, lastUrl: Option<string>, stop: Option<string>): (Option<string>, Option<string>) {
    if Some(url) != lastUrl && !HoldsBoundary(api.commitsAt(url).commits, stop) then NextLast(api.commitsAt(url).link)
    else (None, lastUrl)
  }

  lemma VisitStep(api: GitHub, url: Option<string>, lastUrl: Option<string>, stop: Option<string>, f: nat, done: seq<string>)
    requires Truthy(url) && f > 0
    ensures var nx := Advance(api, url.value, lastUrl, stop);
      Prepend(done, Visited(api, url, lastUrl, stop, f)) == Prepend(done + [url.value], Visited(api, nx.0, nx.1, stop, f - 1))
  {
    var nx := Advance(api, url.value, lastUrl, stop);
    var rest := Visited(api, nx.0, nx.1, stop, f - 1);
    if url == lastUrl || HoldsBoundary(api.commitsAt(url.value).commits, stop) {
      assert rest == Some([]);
      assert done + [url.value] + [] == done + [url.value];
    } else if rest.Some? {
      assert done + ([url.value] + rest.value) == (done + [url.value]) + rest.value;
    }
  }

  lemma {:induction false} RecordsAppend(api: GitHub, a: seq<string>, b: seq<string>)
    ensures Records(api, a + b) == Records(api, a) + Records(api, b)
    decreases |b|
  {
    if b == [] {
      assert a + b == a;
    } else {
      var b' := b[..|b| - 1];
      assert (a + b)[..|a + b| - 1] == a + b';
      RecordsAppend(api, a, b');
    }
  }

  lemma RecordsCons(api: GitHub, u: string, rest: seq<string>)
    ensures Records(api, [u] + rest) == api.commitsAt(u).commits + Records(api, rest)
  {
    RecordsAppend(api, [u], rest);
    assert [u][..0] == [];
  }

  /** Records after a boundary record are never scanned. */
  lemma {:induction false} ScanCut(a: seq<ApiCommit>, b: seq<ApiCommit>, lastKnown: Option<string>, avatars: map<string, string>)
    requires HoldsBoundary(a, lastKnown)
    ensures NewCommits(a + b, lastKnown) == NewCommits(a, lastKnown)
    ensures ScanAvatars(a + b, lastKnown, avatars) == ScanAvatars(a, lastKnown, avatars)
  {
    assert (a + b)[1..] == a[1..] + b;
    if a[0].sha.Some? && !IsBoundary(a[0], lastKnown) {
      ScanCut(a[1..], b, lastKnown, avatars[a[0].author.login := a[0].author.avatarUrl]);
    } else if a[0].sha.None? {
      ScanCut(a[1..], b, lastKnown, avatars);
    }
  }

  /** A run of records without a boundary record is scanned in full, and the
      scan goes on into what follows. */
  lemma {:induction false} ScanSplit(a: seq<ApiCommit>, b: seq<ApiCommit>, lastKnown: Option<string>, avatars: map<string, string>)
    requires !HoldsBoundary(a, lastKnown)
    ensures NewCommits(a + b, lastKnown) == NewCommits(a, lastKnown) + NewCommits(b, lastKnown)
    ensures ScanAvatars(a + b, lastKnown, avatars) == ScanAvatars(b, lastKnown, ScanAvatars(a, lastKnown, avatars))
  {
    if a == [] {
      assert a + b == b;
    } else {
      assert (a + b)[1..] == a[1..] + b;
      if a[0].sha.Some? {
        ScanSplit(a[1..], b, lastKnown, avatars[a[0].author.login := a[0].author.avatarUrl]);
      } else {
        ScanSplit(a[1..], b, lastKnown, avatars);
      }
    }
  }

  /** One page of the breaking consumer's pull, given what holds for the pull
      from the next page on. */
  lemma StopStep(api: GitHub, u: string, stop: Option<string>, avatars: map<string, string>,
                 fullRest: seq<string>, partRest: seq<string>)
    requires !HoldsBoundary(api.commitsAt(u).commits, stop)
    requires var page := api.commitsAt(u).commits;
      && NewCommits(Records(api, partRest), stop) == NewCommits(Records(api, fullRest), stop)
      && ScanAvatars(Records(api, partRest), stop, ScanAvatars(page, stop, avatars))
         == ScanAvatars(Records(api, fullRest), stop, ScanAvatars(page, stop, avatars))
    ensures NewCommits(Records(api, [u] + partRest), stop) == NewCommits(Records(api, [u] + fullRest), stop)
    ensures ScanAvatars(Records(api, [u] + partRest), stop, avatars) == ScanAvatars(Records(api, [u] + fullRest), stop, avatars)
  {
    var page := api.commitsAt(u).commits;
    RecordsCons(api, u, partRest);
    RecordsCons(api, u, fullRest);
    ScanSplit(page, Records(api, partRest), stop, avatars);
    ScanSplit(page, Records(api, fullRest), stop, avatars);
  }

  /** The page holding the boundary record is the last one the breaking
      consumer requests. */
  lemma StopLast(api: GitHub, u: string, stop: Option<string>, avatars: map<string, string>, fullRest: seq<string>)
    requires HoldsBoundary(api.commitsAt(u).commits, stop)
    ensures NewCommits(Records(api, [u]), stop) == NewCommits(Records(api, [u] + fullRest), stop)
    ensures ScanAvatars(Records(api, [u]), stop, avatars) == ScanAvatars(Records(api, [u] + fullRest), stop, avatars)
  {
    var page := api.commitsAt(u).commits;
    RecordsCons(api, u, fullRest);
    RecordsCons(api, u, []);
    assert [u] + [] == [u] && page + [] == page;
    ScanCut(page, Records(api, fullRest), stop, avatars);
  }

  /** Breaking at the last known hash loses nothing: wherever the drained
      generator's pages can be followed, the pages the breaking consumer
      requests are a prefix of them, and its scan collects the same commits and
      avatars. */
  lemma {:induction false} StopLosesNothing(api: GitHub, url: Option<string>, lastUrl: Option<string>, stop: Option<string>,
                                            fuel: nat, avatars: map<string, string>)
    requires Visited(api, url, lastUrl, None, fuel).Some?
    ensures Visited(api, url, lastUrl, stop, fuel).Some?
    ensures var full := Visited(api, url, lastUrl, None, fuel).value;
      var part := Visited(api, url, lastUrl, stop, fuel).value;
      && |part| <= |full| && part == full[..|part|]
      && NewCommits(Records(api, part), stop) == NewCommits(Records(api, full), stop)
      && ScanAvatars(Records(api, part), stop, avatars) == ScanAvatars(Records(api, full), stop, avatars)
    decreases fuel
  {
    if Truthy(url) && url != lastUrl {
      var u := url.value;
      var page := api.commitsAt(u).commits;
      var nl := NextLast(api.commitsAt(u).link);
      assert !HoldsBoundary(page, None);
      var fullRest := Visited(api, nl.0, nl.1, None, fuel - 1).value;
      assert Visited(api, url, lastUrl, None, fuel).value == [u] + fullRest;
      if HoldsBoundary(page, stop) {
        assert Visited(api, url, lastUrl, stop, fuel).value == [u];
        StopLast(api, u, stop, avatars, fullRest);
      } else {
        StopLosesNothing(api, nl.0, nl.1, stop, fuel - 1, ScanAvatars(page, stop, avatars));
        var partRest := Visited(api, nl.0, nl.1, stop, fuel - 1).value;
        assert Visited(api, url, lastUrl, stop, fuel).value == [u] + partRest;
        StopStep(api, u, stop, avatars, fullRest, partRest);
      }
    }
  }

  /** `_get_github_commits`, as far as its consumer pulls it: requests pages
      until the loop condition fails, or until a page holds the record hashed
      `stop` at which the consumer breaks, and yields every record of every
      requested page, in order. */
  method GetGithubCommits(api: GitHub, owner: string, repo: string, author: Option<string>, since: Option<string>,
                          stop: Option<string>, fuel: nat)
    returns (r: Option<seq<ApiCommit>>)
    ensures var vs := Visited(api, Some(CommitsUrl(owner, repo, author, since)), None, stop, fuel);
      r == if vs.None? then None else Some(Records(api, vs.value))
  {
    var url: Option<string> := Some(CommitsUrl(owner, repo, author, since));
    var lastUrl: Option<string> := None;
    var records: seq<ApiCommit> := [];
    var f := fuel;
    ghost var done: seq<string> := [];
    assert Prepend(done, Visited(api, url, lastUrl, stop, f)) == Visited(api, url, lastUrl, stop, f) by {
      assert Visited(api, url, lastUrl, stop, f).Some? ==>
        [] + Visited(api, url, lastUrl, stop, f).value == Visited(api, url, lastUrl, stop, f).value;
    }
    while Truthy(url)
      invariant Visited(api, Some(CommitsUrl(owner, repo, author, since)), None, stop, fuel) == Prepend(done, Visited(api, url, lastUrl, stop, f))
      invariant records == Records(api, done)
      decreases f
    {
      if f == 0 {
        return None;
      }
      var page := api.commitsAt(url.value);
      VisitStep(api, url, lastUrl, stop, f, done);
      RecordsAppend(api, done, [url.value]);
      assert Records(api, [url.value]) == page.commits by {
        assert [url.value][..0] == [];
      }
      done := done + [url.value];
      if HoldsBoundary(page.commits, stop) {
        url := None;
      } else if url != lastUrl {
        var nl := NextLast(page.link);
        url, lastUrl := nl.0, nl.1;
      } else {
        url := None;
      }
      records := records + page.commits;
      f := f - 1;
    }
    assert done + [] == done;
    r := Some(records);
  }

  // ---------------------------------------------------------------- update

  /** `_update_latest_commits`, with the records the commit pages yield. */
  method UpdateLatestCommits(repo: Repo, records: seq<ApiCommit>, since: int, parse: string -> int, avatars: map<string, string>)
    returns (repo': Repo, avatars': map<string, string>)
    ensures repo' == repo.(recentCommits := Window(repo, records, since, parse))
    ensures avatars' == WindowAvatars(repo, records, since, parse, avatars)
  {
    var fetched, scanned := CollectNewCommits(records, LastKnown(repo), avatars);
    var commits := PopExpired(fetched + repo.recentCommits, since, parse);
    repo' := repo.(recentCommits := commits);
    avatars' := PruneAvatars(scanned, Usernames(commits));
  }

  /** `update` on a loaded record: the new window, then the top contributors, then
      the avatar map written back in full. None when the pages requested before
      the scan breaks exceed `fuel`. */
  function Updated(repo: Repo, api: GitHub, now: int, iso: int -> string, parse: string -> int, fuel: nat): Option<Repo> {
    var since := now - Week;
    var pages := Visited(api, Some(CommitsUrl(repo.owner, repo.name, None, Some(iso(since)))), None, LastKnown(repo), fuel);
    if pages.None? then None
    else
      var records := Records(api, pages.value);
      var w := Window(repo, records, since, parse);
      var m := WindowAvatars(repo, records, since, parse, repo.avatars);
      var contributors := api.contributorsAt(GithubUrl(repo.owner, repo.name, "contributors"));
      Some(repo.(recentCommits := w,
                 topContributors := if w == [] then TopFive(contributors) else [],
                 avatars := if w == [] then ContributorAvatars(contributors, Min(5, |contributors|), m) else m))
  }

  /** When the first page already holds the newest stored commit, one page of
      fuel completes the update, whatever its Link header advertises after it. */
  lemma {:induction false} BoundaryOnFirstPage(repo: Repo, link: string -> Option<string>, now: int, iso: int -> string, parse: string -> int)
    requires repo.recentCommits != []
    ensures var rec := ApiCommit(Some(repo.recentCommits[0].sha), "", ApiAuthor("", ""));
      Updated(repo, GitHub(u => Page(link(u), [rec]), u => []), now, iso, parse, 1).Some?
  {
    var rec := ApiCommit(Some(repo.recentCommits[0].sha), "", ApiAuthor("", ""));
    var api := GitHub(u => Page(link(u), [rec]), u => []);
    var url := CommitsUrl(repo.owner, repo.name, None, Some(iso(now - Week)));
    assert HoldsBoundary(api.commitsAt(url).commits, LastKnown(repo)) by {
      assert IsBoundary(api.commitsAt(url).commits[0], LastKnown(repo));
    }
  }

  function ContributorNames(cs: seq<Contributor>): set<string> {
    set c | c in cs :: c.username
  }

  /** With no earlier avatars, the first five contributors' avatars are keyed
      exactly by the names of the top five. */
  lemma TopFiveAvatarKeys(api: seq<ApiContributor>)
    ensures ContributorAvatars(api, Min(5, |api|), map[]).Keys == ContributorNames(TopFive(api))
  {
    var n := Min(5, |api|);
    var top := TopFive(api);
    ContributorAvatarsKeys(api, n, map[]);
    forall u | u in ContributorNames(top) ensures u in Logins(api, n) {
      var c :| c in top && c.username == u;
      var i :| 0 <= i < |top| && top[i] == c;
    }
    forall i | 0 <= i < n ensures api[i].login in ContributorNames(top) {
      assert top[i] in top;
    }
  }

  /** After an update every avatar belongs to a recent committer or a top
      contributor; top contributors appear only when the week was quiet, and
      then the avatar keys are exactly their names. */
  lemma UpdatedAvatars(repo: Repo, api: GitHub, now: int, iso: int -> string, parse: string -> int, fuel: nat)
    requires Updated(repo, api, now, iso, parse, fuel).Some?
    ensures var r := Updated(repo, api, now, iso, parse, fuel).value;
      && r.avatars.Keys <= Usernames(r.recentCommits) + ContributorNames(r.topContributors)
      && (r.recentCommits != [] ==> r.topContributors == [] && r.avatars.Keys <= Usernames(r.recentCommits))
      && |r.topContributors| <= 5
      && (r.recentCommits == [] ==> r.avatars.Keys == ContributorNames(r.topContributors))
  {
    var since := now - Week;
    var pages := Visited(api, Some(CommitsUrl(repo.owner, repo.name, None, Some(iso(since)))), None, LastKnown(repo), fuel);
    var records := Records(api, pages.value);
    var w := Window(repo, records, since, parse);
    var m := WindowAvatars(repo, records, since, parse, repo.avatars);
    var contributors := api.contributorsAt(GithubUrl(repo.owner, repo.name, "contributors"));
    WindowAvatarsOwned(repo, records, since, parse, repo.avatars);
    if w == [] {
      assert m == map[];
      TopFiveAvatarKeys(contributors);
    }
  }

  // ---------------------------------------------------------------- registry

  /** The working directory: user -> owner -> repo -> record. */
  type Tree = map<string, map<string, map<string, Repo>>>

  predicate Tracked(tree: Tree, t: (string, string, string)) {
    t.0 in tree && t.1 in tree[t.0] && t.2 in tree[t.0][t.1]
  }

  /** No user or owner directory is empty. */
  predicate NoEmptyDirs(tree: Tree) {
    forall u :: u in tree ==> tree[u] != map[] && forall o :: o in tree[u] ==> tree[u][o] != map[]
  }

  /** `add` on success: makedirs for the owner directory, then the new record. */
  function Inserted(tree: Tree, u: string, o: string, r: string, v: Repo): Tree {
    var owners := if u in tree then tree[u] else map[];
    var repos := if o in owners then owners[o] else map[];
    tree[u := owners[o := repos[r := v]]]
  }

  /** `remove` on success: the record deleted, then the owner directory and the
      user directory if they became empty. */
  function Removed(tree: Tree, u: string, o: string, r: string): Tree
    requires Tracked(tree, (u, o, r))
  {
    var repos := tree[u][o] - {r};
    var owners := if repos == map[] then tree[u] - {o} else tree[u][o := repos];
    if owners == map[] then tree - {u} else tree[u := owners]
  }

  lemma InsertedListing(tree: Tree, u: string, o: string, r: string, v: Repo, t: (string, string, string))
    ensures Tracked(Inserted(tree, u, o, r, v), t) <==> Tracked(tree, t) || t == (u, o, r)
    ensures NoEmptyDirs(tree) ==> NoEmptyDirs(Inserted(tree, u, o, r, v))
    ensures Inserted(tree, u, o, r, v)[u][o][r] == v
  {
    var t' := Inserted(tree, u, o, r, v);
    if NoEmptyDirs(tree) {
      forall x | x in t'
        ensures t'[x] != map[] && forall y :: y in t'[x] ==> t'[x][y] != map[]
      {
        if x == u {
          assert o in t'[x] && r in t'[x][o];
        }
      }
    }
  }

  /** Removing a record keeps every other record. */
  lemma RemovedKeeps(tree: Tree, u: string, o: string, r: string, t: (string, string, string))
    requires Tracked(tree, (u, o, r))
    requires Tracked(tree, t) && t != (u, o, r)
    ensures Tracked(Removed(tree, u, o, r), t)
  {
    var repos := tree[u][o] - {r};
    var owners := if repos == map[] then tree[u] - {o} else tree[u][o := repos];
    var t' := Removed(tree, u, o, r);
    if t.0 != u {
      assert t'[t.0] == tree[t.0];
    } else if t.1 != o {
      assert owners[t.1] == tree[u][t.1];
      assert t'[u] == owners;
    } else {
      assert t.2 in repos;
      assert owners[o] == repos;
      assert t'[u] == owners;
    }
  }

  /** Removing a record adds none and leaves that one gone. */
  lemma RemovedOnly(tree: Tree, u: string, o: string, r: string, t: (string, string, string))
    requires Tracked(tree, (u, o, r))
    requires Tracked(Removed(tree, u, o, r), t)
    ensures Tracked(tree, t) && t != (u, o, r)
  {
    var repos := tree[u][o] - {r};
    var owners := if repos == map[] then tree[u] - {o} else tree[u][o := repos];
    var t' := Removed(tree, u, o, r);
    if t.0 != u {
      assert t'[t.0] == tree[t.0];
    } else {
      assert owners != map[];
      assert t'[u] == owners;
      if t.1 != o {
        assert owners[t.1] == tree[u][t.1];
      } else {
        assert repos != map[];
        assert owners[o] == repos;
      }
    }
  }

  lemma RemovedListing(tree: Tree, u: string, o: string, r: string, t: (string, string, string))
    requires Tracked(tree, (u, o, r))
    ensures Tracked(Removed(tree, u, o, r), t) <==> Tracked(tree, t) && t != (u, o, r)
  {
    if Tracked(Removed(tree, u, o, r), t) {
      RemovedOnly(tree, u, o, r, t);
    }
    if Tracked(tree, t) && t != (u, o, r) {
      RemovedKeeps(tree, u, o, r, t);
    }
  }

  /** Removing a record leaves no empty user or owner directory behind. */
  lemma RemovedNoEmptyDirs(tree: Tree, u: string, o: string, r: string)
    requires Tracked(tree, (u, o, r))
    requires NoEmptyDirs(tree)
    ensures NoEmptyDirs(Removed(tree, u, o, r))
  {
    var repos := tree[u][o] - {r};
    var owners := if repos == map[] then tree[u] - {o} else tree[u][o := repos];
    var t' := Removed(tree, u, o, r);
    forall x | x in t'
      ensures t'[x] != map[] && forall y :: y in t'[x] ==> t'[x][y] != map[]
    {
      if x != u {
        assert t'[x] == tree[x];
      } else {
        assert t'[u] == owners;
      }
    }
  }

  class RepoTracker {
    var tree: Tree
    var user: string
    var owner: string
    var repo: string
    var githubToken: Option<string>

    constructor (workDir: Tree)
      ensures tree == workDir && user == "" && owner == "" && repo == "" && githubToken == None
    {
      tree := workDir;
      user, owner, repo := "", "", "";
      githubToken := None;
    }

    /** `configure`: which repo the following operations act on. */
    method Configure(user: string, owner: string, repo: string, githubToken: Option<string>)
      modifies this
      ensures this.user == user && this.owner == owner && this.repo == repo && this.githubToken == githubToken
      ensures tree == old(tree)
    {
      this.user, this.owner, this.repo := user, owner, repo;
      this.githubToken := githubToken;
    }

    /** `error`: the message followed by the repo's full name. */
    function Error(message: string): TrackerError
      reads this
    {
      TrackerError(message + " " + user + ":" + owner + "/" + repo)
    }

    method Add() returns (o: Outcome<TrackerError>)
      modifies this`tree
      ensures Tracked(old(tree), (user, owner, repo)) ==> o == Fail(Error("Repo exists")) && tree == old(tree)
      ensures !Tracked(old(tree), (user, owner, repo)) ==>
                o == Pass && tree == Inserted(old(tree), user, owner, repo, NewRepo(user, owner, repo))
    {
      if Tracked(tree, (user, owner, repo)) {
        return Fail(Error("Repo exists"));
      }
      tree := Inserted(tree, user, owner, repo, NewRepo(user, owner, repo));
      o := Pass;
    }

    method Remove() returns (o: Outcome<TrackerError>)
      modifies this`tree
      ensures !Tracked(old(tree), (user, owner, repo)) ==> o == Fail(Error("Repo not found")) && tree == old(tree)
      ensures Tracked(old(tree), (user, owner, repo)) ==> o == Pass && tree == Removed(old(tree), user, owner, repo)
    {
      if !Tracked(tree, (user, owner, repo)) {
        return Fail(Error("Repo not found"));
      }
      var repos := tree[user][owner] - {repo};
      var owners := tree[user];
      if repos == map[] {
        owners := owners - {owner};
      } else {
        owners := owners[owner := repos];
      }
      if owners == map[] {
        tree := tree - {user};
      } else {
        tree := tree[user := owners];
      }
      o := Pass;
    }

    /** `list`: every tracked (user, owner, repo), each once, in directory order. */
    method List() returns (triples: seq<(string, string, string)>)
      ensures forall t :: t in triples <==> Tracked(tree, t)
      ensures forall i, j :: 0 <= i < j < |triples| ==> triples[i] != triples[j]
    {
      triples := [];
      var users := tree.Keys;
      ghost var doneUsers: set<string> := {};
      while users != {}
        invariant users + doneUsers == tree.Keys && users !! doneUsers
        invariant forall t :: t in triples <==> Tracked(tree, t) && t.0 in doneUsers
        invariant forall i, j :: 0 <= i < j < |triples| ==> triples[i] != triples[j]
        decreases users
      {
        var u :| u in users;
        var owners := tree[u].Keys;
        ghost var doneOwners: set<string> := {};
        while owners != {}
          invariant owners + doneOwners == tree[u].Keys && owners !! doneOwners
          invariant forall t :: t in triples <==>
            Tracked(tree, t) && (t.0 in doneUsers || (t.0 == u && t.1 in doneOwners))
          invariant forall i, j :: 0 <= i < j < |triples| ==> triples[i] != triples[j]
          decreases owners
        {
          var o :| o in owners;
          var repos := tree[u][o].Keys;
          ghost var doneRepos: set<string> := {};
          while repos != {}
            invariant repos + doneRepos == tree[u][o].Keys && repos !! doneRepos
            invariant forall t :: t in triples <==>
              Tracked(tree, t) && (t.0 in doneUsers || (t.0 == u && (t.1 in doneOwners || (t.1 == o && t.2 in doneRepos))))
            invariant forall i, j :: 0 <= i < j < |triples| ==> triples[i] != triples[j]
            decreases repos
          {
            var r :| r in repos;
            triples := triples + [(u, o, r)];
            repos := repos - {r};
            doneRepos := doneRepos + {r};
          }
          owners := owners - {o};
          doneOwners := doneOwners + {o};
        }
        users := users - {u};
        doneUsers := doneUsers + {u};
      }
    }

    method Load() returns (r: Result<Repo, TrackerError>)
      ensures Tracked(tree, (user, owner, repo)) ==> r == Ok(tree[user][owner][repo])
      ensures !Tracked(tree, (user, owner, repo)) ==> r == Err(Error("Repo not found"))
    {
      if !Tracked(tree, (user, owner, repo)) {
        return Err(Error("Repo not found"));
      }
      r := Ok(tree[user][owner][repo]);
    }

    /** `update`: load, bring the window and the top contributors up to date,
        write the record back. `now` is the clock, `iso` renders a time for the
        query string and `parse` reads a stored timestamp. */
    method Update(api: GitHub, now: int, iso: int -> string, parse: string -> int, fuel: nat)
      returns (o: Outcome<TrackerError>)
      modifies this`tree
      ensures !Tracked(old(tree), (user, owner, repo)) ==> o == Fail(Error("Repo not found")) && tree == old(tree)
      ensures Tracked(old(tree), (user, owner, repo)) ==>
        var loaded := old(tree)[user][owner][repo];
        match Updated(loaded, api, now, iso, parse, fuel)
        case None => o == Fail(PageLimit) && tree == old(tree)
        case Some(r) => o == Pass && tree == old(tree)[user := old(tree)[user][owner := old(tree)[user][owner][repo := r]]]
    {
      var loaded := Load();
      if loaded.Err? {
        return Fail(loaded.error);
      }
      var repo0 := loaded.value;
      var avatars := repo0.avatars;
      var since := now - Week;
      var records := GetGithubCommits(api, repo0.owner, repo0.name, None, Some(iso(since)), LastKnown(repo0), fuel);
      if records.None? {
        return Fail(PageLimit);
      }
      var repo1, avatars1 := UpdateLatestCommits(repo0, records.value, since, parse, avatars);
      var contributors := api.contributorsAt(GithubUrl(repo1.owner, repo1.name, "contributors"));
      var repo2, avatars2 := UpdateTopContributors(repo1, contributors, avatars1);
      var repo3 := repo2.(avatars := avatars2);
      tree := tree[user := tree[user][owner := tree[user][owner][repo := repo3]]];
      o := Pass;
    }
  }
}

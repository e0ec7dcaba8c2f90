# Hall of fame, modelled in Dafny

This project models the core of the hall-of-fame generator: the service that
shows, for a GitHub repository, a small gallery of badged avatars of the people
who recently committed to it. It has three parts, and each is a module here.

- **GithubTracker** (`fame/github_tracker.py`) keeps one record per tracked repo.
  A record holds the commits of the last seven days, newest first, the avatar URLs
  of their authors, and the top contributors of all time, which are kept only
  when the week was quiet.
  - An update pages through the commits endpoint, following the `Link` header.
  - It puts the new commits in front of the stored ones and pops expired commits
    off the tail.
  - It prunes the avatar map, then refreshes the top contributors.
  - The tracker also adds, removes and lists records in a working directory of
    user / owner / repo.
- **Glory** (`fame/glory.py`) counts the week's commits per user and sorts the users
  by descending count, keeping ties stable.
  - It walks the sorted users into at most three "new" faces and at most five
    "trending" ones.
  - It falls back to the top five contributors only when both lists are empty.
  - For each face, in the order trending, new, top, it renders a badge, saves it as
    `user/owner/name/images/<i>.svg`, and writes `links.txt` and `test.html`, both
    aligned with the image indices.
  - It also reads the GitHub-to-Sourcerer user mapping from `users.csv`.
- **Avatar** (`fame/avatar.py`, with the numbers of `fame/svg_templates.py`) holds
  two stateful objects.
  - `Badger` measures the label and the count with a per-character width table and
    fills in the badge template.
  - `AvatarAdorner` does the rest, in order:
    - embeds the face picture as base64 data;
    - reads the face size from the viewBox;
    - nests the face's children under one inner `<svg>`;
    - appends the badge below the face on a canvas wide enough for both, centring
      whichever of the two is narrower.

The supporting modules are **Wrappers** and **Text**.
- **Wrappers** holds `Option`, `Result` and `Outcome`. They stand in for Python's
  `None` and its exceptions.
- **Text** holds the Python string built-ins the code relies on, with their Python
  semantics:
  - `str.split` with a one-character separator, and `str.join`;
  - `str.strip` on ASCII whitespace;
  - `str(int)`;
  - `float()` on plain decimal numerals;
  - `posixpath.join`.

The model keeps the source's form.
- Python objects whose methods assign fields are Dafny classes with those fields:
  `RepoTracker`, `Generator`, `Badger` and `AvatarAdorner`.
- Each of their methods is proved against a function of the old state.
- Loops are methods with invariants: commit collection, tail popping, avatar pruning,
  pagination, counting, the trending/new walk, the badge loop, the users.csv loop and
  the nesting of SVG children.
- Everything else is functions, each with lemmas stating what the source promises.

Facts about the code that the model keeps:
- trending holds at most 5 users;
- badges are ordered trending, new, top;
- top contributors are shown only when trending and new are both empty, and only up to
  five of them;
- top contributors are fetched only in a quiet week, and only up to five;
- there is no bot filter, no legend or filler slot, and no staged publish;
- a failed update writes nothing and records no error status;
- no code computes `new_contributors`; the model only reads it.

## Model

| member | source | states |
|---|---|---|
| GithubTracker.StopIndex | fame/github_tracker.py:120-126 | the scan stops at the first record whose hash is the last known one: no earlier record is such a boundary |
| GithubTracker.NewCommitsBeforeBoundary | fame/github_tracker.py:116-137 | the collected commits are exactly the hashed records before the first boundary record, records without a hash skipped |
| GithubTracker.FirstSyncKeepsAll | fame/github_tracker.py:116-126 | with no stored commits there is no early stop: every hashed record is collected |
| GithubTracker.StoredFields | fame/github_tracker.py:124-137 | each collected commit has a record's hash, its author login, and its author date without the final character |
| GithubTracker.ScanAvatarsKeys | fame/github_tracker.py:120-132 | after the scan a user has an avatar iff it had one before or authored a collected commit |
| GithubTracker.CollectNewCommits | fame/github_tracker.py:117-137 | the loop builds exactly the collected commits and the scanned avatar map |
| GithubTracker.TrimExpired | fame/github_tracker.py:139-142 | the result is a prefix whose last commit is not older than `since`, and every popped commit is older |
| GithubTracker.TrimKeepsExactlyRecent | fame/github_tracker.py:139-142 | on a newest-first list, a commit is kept iff it is not older than `since` |
| GithubTracker.PopExpired | fame/github_tracker.py:141-142 | the while/pop loop computes TrimExpired |
| GithubTracker.PruneAvatars | fame/github_tracker.py:147-151 | the keys left are the old keys that are valid users, each with its old value |
| GithubTracker.WindowPrefix | fame/github_tracker.py:139-145 | the new window is a prefix of new commits ++ stored commits whose oldest entry is within the week |
| GithubTracker.WindowExactlyRecent | fame/github_tracker.py:139-145 | when the merged list is newest first, the dropped entries are exactly those older than `since` |
| GithubTracker.WindowAvatarsOwned | fame/github_tracker.py:147-151 | every avatar left belongs to the author of a kept commit and keeps the URL the scan gave it |
| GithubTracker.UpdateLatestCommits | fame/github_tracker.py:114-151 | the record's commits become the window and the avatar map the pruned scan result; no other field changes |
| GithubTracker.TopFive | fame/github_tracker.py:192-195 | the first min(5, n) API contributors, in API order, as (login, contributions) |
| GithubTracker.ContributorAvatarsKeys | fame/github_tracker.py:192-196 | adding the contributors' avatars adds exactly their logins as keys |
| GithubTracker.ContributorAvatarValue | fame/github_tracker.py:192-196 | a contributor's avatar URL is the one of its last entry among those added |
| GithubTracker.TopFiveAvatarKeys | fame/github_tracker.py:183-196 | starting from no avatars, the keys are exactly the names of the top five |
| GithubTracker.UpdateTopContributors | fame/github_tracker.py:183-196 | top contributors are always cleared, and refilled with the first five contributors and their avatars only when there are no recent commits |
| GithubTracker.IndexFrom | fame/github_tracker.py:179 | the first position at or after i holding the character, or the length |
| GithubTracker.MatchLink | fame/github_tracker.py:179 | a match of the link pattern at the start of the text has a positive length within the text |
| GithubTracker.MatchEntryRel | fame/github_tracker.py:179 | a `<url>; rel="next"` or `rel="last"` entry matches in full, giving its URL and rel |
| GithubTracker.MatchEntryOther | fame/github_tracker.py:179 | a prev or first entry does not match |
| GithubTracker.FindLinksEntry | fame/github_tracker.py:179 | findall over an entry then more text yields the entry's (url, rel) when it is next or last, then findall of the rest |
| GithubTracker.SkipNoAngle | fame/github_tracker.py:179 | text without '<' before the next entry contributes no match |
| GithubTracker.FindLinksHeader | fame/github_tracker.py:179 | findall over a header of plain-URL entries yields the next/last entries in order |
| GithubTracker.NextLastEntriesSnoc | fame/github_tracker.py:179 | one more entry adds its own matches after the others |
| GithubTracker.RelMapOfEntries | fame/github_tracker.py:180-181 | the dict of matches maps next and last to the URL of the last entry with that rel |
| GithubTracker.NextLastOfHeader | fame/github_tracker.py:174-181 | no header gives (None, None); a header gives the URLs of the last "next" and the last "last" entry |
| GithubTracker.CommitsUrlShape | fame/github_tracker.py:153-161 | the first URL is the commits endpoint, `?per_page=100`, then `&author=` when the author is non-empty and `&since=` when a time is given |
| GithubTracker.JoinArgs | fame/github_tracker.py:155-161 | joining the arguments with '&' writes each optional argument with its '&' prefix |
| GithubTracker.VisitedChain | fame/github_tracker.py:163-169 | the loop starts at the first URL and follows next links; it continues from a page only when that page is not the last URL advertised before it and holds no record with the hash the consumer breaks at, and it ends on a page that is or does, or on a page without a next link |
| GithubTracker.VisitStep | fame/github_tracker.py:164-169 | one turn of the loop: the URL is requested, then the next and last links are read, or the loop ends because the page was the last advertised or the consumer has stopped pulling |
| GithubTracker.RecordsAppend | fame/github_tracker.py:170-172 | the records of two runs of pages are the records of the first run, then those of the second |
| GithubTracker.GetGithubCommits | fame/github_tracker.py:153-172 | the generator yields the records of every page it requests, in order, requesting no page after the one holding the record its consumer breaks at, or reports that the fuel ran out |
| GithubTracker.ScanCut | fame/github_tracker.py:124-126 | records after a boundary record do not change the collected commits or the avatar map |
| GithubTracker.ScanSplit | fame/github_tracker.py:120-135 | records before any boundary record are all scanned, and the scan continues into the records that follow |
| GithubTracker.StopLosesNothing | fame/github_tracker.py:119-126 | whenever the full chain of pages can be followed, the pages requested by a consumer that breaks at the last known hash are a prefix of it and yield the same collected commits and avatar map |
| GithubTracker.UpdatedAvatars | fame/github_tracker.py:102-112 | after an update every avatar belongs to a recent committer or a top contributor; top contributors are empty when the week had commits, at most five, and after a quiet week they are exactly the avatar keys |
| GithubTracker.InsertedListing | fame/github_tracker.py:46-59 | after `add`, exactly the old records plus the new one are tracked, no directory is empty, and the new record is the one stored |
| GithubTracker.RemovedKeeps | fame/github_tracker.py:62-74 | removing a record keeps every other record |
| GithubTracker.RemovedOnly | fame/github_tracker.py:62-74 | removing a record adds none and leaves the removed one untracked |
| GithubTracker.RemovedListing | fame/github_tracker.py:62-74 | after `remove`, a triple is tracked iff it was tracked and is not the removed one |
| GithubTracker.RemovedNoEmptyDirs | fame/github_tracker.py:71-74 | the owner and user directories are deleted once they are empty, so none is left empty |
| GithubTracker.RepoTracker.constructor | fame/github_tracker.py:26-27 | the tracker works on the given directory tree |
| GithubTracker.RepoTracker.Configure | fame/github_tracker.py:29-40 | sets user, owner, repo and token and leaves the tree alone |
| GithubTracker.RepoTracker.Add | fame/github_tracker.py:46-60 | fails with "Repo exists" and writes nothing when the repo is tracked; otherwise stores a new empty record |
| GithubTracker.RepoTracker.Remove | fame/github_tracker.py:62-75 | fails with "Repo not found" when absent; otherwise deletes the record and any directory that becomes empty |
| GithubTracker.RepoTracker.List | fame/github_tracker.py:77-84 | enumerates exactly the tracked (user, owner, repo) triples, each once |
| GithubTracker.RepoTracker.Load | fame/github_tracker.py:86-94 | returns the stored record, or fails with "Repo not found" |
| GithubTracker.BoundaryOnFirstPage | fame/github_tracker.py:119-126 | when the first page holds the newest stored commit, an update needs one page and completes whatever links that page advertises |
| GithubTracker.RepoTracker.Update | fame/github_tracker.py:102-112 | a missing repo fails and writes nothing; a pull that needs more pages than the fuel before reaching the last known commit fails with `PageLimit` and writes nothing; otherwise the record is replaced by the updated one, and nothing else changes |
| Glory.FirstOccurrences | fame/glory.py:98-102 | the dict's key order: every name once, in order of first appearance |
| Glory.TallyCounts | fame/glory.py:97-102 | one entry per distinct committer, in order of first commit, whose count is that committer's number of commits |
| Glory.CountedSnoc | fame/glory.py:101 | incrementing one user's count keeps keys and counts in step with the commits counted so far |
| Glory.CountedTally | fame/glory.py:102 | the dict's items after the loop are the tally |
| Glory.CountCommits | fame/glory.py:97-105 | the counting loop and the sort give the stably sorted tally |
| Glory.InsertByCount | fame/glory.py:103 | insertion puts an entry after every entry whose count is at least its own |
| Glory.SortByCount | fame/glory.py:103 | the sort by descending count keeps the entries |
| Glory.SortSorted | fame/glory.py:103 | the result is sorted by descending count |
| Glory.SortStable | fame/glory.py:103 | entries with equal counts keep their original order |
| Glory.CountedContributors | fame/glory.py:97-105 | the counted list is sorted by descending count, a permutation of the tally, and stable on ties |
| Glory.SortDistinctNames | fame/glory.py:103-104 | sorting a list whose entries name distinct users keeps them distinct |
| Glory.CountedDistinct | fame/glory.py:97-105 | the counted list names each committer once, since the entries are dict items |
| Glory.WalkStep | fame/glory.py:44-50 | one step of the loop: new face iff a new contributor arrives while fewer than 3 new faces exist; otherwise trending only while fewer than 5 |
| Glory.WalkBounds | fame/glory.py:43-50 | at most 3 new faces and at most 5 trending users |
| Glory.WalkNewInSet | fame/glory.py:45-46 | every new face is a new contributor |
| Glory.WalkOverflow | fame/glory.py:45-48 | a new contributor goes to trending only when the new faces are full |
| Glory.WalkStop | fame/glory.py:47-50 | the loop breaks only at a user who fits neither list, so no later user is placed |
| Glory.PickSubseq | fame/glory.py:44-48 | each list keeps the counted order |
| Glory.AssignedDisjointNames | fame/glory.py:44-50 | when the counted entries name distinct users, the if/elif puts no user into both lists |
| Glory.AssignedRules | fame/glory.py:36-52 | new faces ≤ 3, all new contributors; trending ≤ 5; both are order-preserving subsequences of the counted list; they are disjoint when its entries are; overflow and early stop as above |
| Glory.WalkAdvance | fame/glory.py:44-50 | one turn of the loop extends the walk by the slot the branch takes, or, at `break`, the walk is complete |
| Glory.AssignTrendingAndNew | fame/glory.py:36-52 | the loop computes the trending and new-face lists the walk defines |
| Glory.TopPairs | fame/glory.py:56-57 | the first min(5, n) top contributors as (username, count) |
| Glory.AssignTop | fame/glory.py:54-59 | the loop and the sort give the stably re-sorted first five |
| Glory.TopRules | fame/glory.py:54-59 | at most five entries, sorted by descending count, a permutation of the first five, stable on ties |
| Glory.ChosenDisjoint | fame/glory.py:28-50 | no username is both in the trending list and in the new faces that `make` computes |
| Glory.ChosenFallback | fame/glory.py:28-32 | trending and new are both empty exactly when the week had no commits; only then is the top list non-empty, with min(5, n) entries |
| Glory.ChosenSize | fame/glory.py:28-34 | at most 5 trending, 3 new and 5 top, and at most 8 faces in all |
| Glory.Tagged | fame/glory.py:62-64 | each pair tagged with its list's label, in order |
| Glory.EveryoneOrder | fame/glory.py:62-64 | the badge list is the trending entries, then the new ones, then the top ones, each with its label |
| Glory.MapToSourcerer | fame/glory.py:107-113 | a user has a Sourcerer name exactly when it has a Sourcerer avatar URL |
| Glory.FaceSourceRules | fame/glory.py:71-79 | a mapped user starts from the Sourcerer avatar document and links to `https://sourcerer.io/<name>`; an unmapped user starts from the GitHub template pointing at `repo.avatars[user]` and links to `https://github.com/<user>`; a missing avatar raises |
| Glory.RenderProfile | fame/glory.py:72-79 | a rendered badge links to the profile the mapping gives |
| Glory.Renders | fame/glory.py:68-80 | one render result per entry |
| Glory.RendersAll | fame/glory.py:68-80 | result i is the render of entry i |
| Glory.UntilFailure | fame/glory.py:68-83 | the loop stops at the first exception: the results before it are successes, and the failure is the first error |
| Glory.UntilFailureOf | fame/glory.py:68-83 | a run of successes followed by a failure or by nothing is what UntilFailure reports |
| Glory.PlainPaths | fame/glory.py:123-133 | with plain components, badge i is at user/owner/name/images/i.svg and the two text files sit in user/owner/name |
| Glory.JoinRelative | fame/glory.py:123-133 | joining a relative component appends it after the directory and a separator |
| Glory.ImagePathsDistinct | fame/glory.py:82-94 | distinct indices give distinct image paths, and no image path is links.txt or test.html |
| Glory.LinkFileNotPage | fame/glory.py:123-127 | links.txt and test.html are different paths |
| Glory.Cleaned | fame/glory.py:115-121 | the image directory's subtree and the link list are removed, and every other file is kept unchanged |
| Glory.PutAllContents | fame/glory.py:82-83 | with distinct paths every saved file lands under its path and nothing else changes |
| Glory.SaveImagesContents | fame/glory.py:82-83 | badge i is stored as image i and no other file changes |
| Glory.TextFilesKeepImages | fame/glory.py:82-94 | writing the two text files after the images keeps every image |
| Glory.Profiles | fame/glory.py:67-79 | the profile URLs of the badges, index-aligned |
| Glory.AnchorLines | fame/glory.py:90-92 | line i links profile i to image i |
| Glory.TerminatedJoin | fame/glory.py:89-92 | the newline-terminated lines are the lines and one empty field joined by newlines |
| Glory.HtmlLines | fame/glory.py:89-94 | line k of test.html is the anchor for profile k and image k, and the file ends with a newline |
| Glory.LinkLines | fame/glory.py:86 | line i of links.txt is profile i when no profile holds a newline |
| Glory.GalleryFailed | fame/glory.py:68-86 | on a failure at badge k the images before k are saved and nothing else is written |
| Glory.GalleryImages | fame/glory.py:68-83 | on success every badge was made, and image i holds badge i |
| Glory.GalleryTexts | fame/glory.py:85-94 | on success links.txt and test.html are written from the badges' profiles, in order |
| Glory.ProfileUrls | fame/glory.py:72-79 | the profile URL of each entry, in order |
| Glory.RenderedProfiles | fame/glory.py:67-80 | when every entry renders, the collected profiles are the entries' profile URLs |
| Glory.IssuedImages | fame/glory.py:61-83 | after a successful `_issue_badges`, image i is the badge of entry i |
| Glory.IssuedTexts | fame/glory.py:61-94 | after a successful `_issue_badges`, links.txt and test.html are written from the entries' profiles, in order |
| Glory.IssuedFailed | fame/glory.py:61-83 | a failing `_issue_badges` fails at the first entry whose badge cannot be made, with that entry's error, and only the earlier images were written |
| Glory.ParseUserLinesFails | fame/glory.py:17-21 | reading fails iff some line does not split into exactly two fields, and the error names the first such line |
| Glory.ParseUserLinesAt | fame/glory.py:19-21 | one turn of the loop: a line of two fields maps the first to the second; any other line raises |
| Glory.LoadUsers | fame/glory.py:16-21 | the loop over the stripped, split data computes the mapping, or fails at the first malformed line |
| Glory.BlankUsersFile | fame/glory.py:17-20 | an empty or blank users.csv raises, because its one line has a single field |
| Glory.AssocKeys | fame/glory.py:19-21 | the names mapped are those mapped before and those on some line |
| Glory.AssocKeeps | fame/glory.py:19-21 | a name no line mentions keeps its value |
| Glory.AssocLast | fame/glory.py:19-21 | a later line for a name overrides an earlier one: the name holds its last line's value |
| Glory.ParseCsvLines | fame/glory.py:19-21 | lines written from plain-name pairs read back as those pairs, in order |
| Glory.UsersRoundTrip | fame/glory.py:16-21 | reading a users.csv written from plain-name pairs gives the map in which each name holds its last pair's value |
| Glory.Generator.constructor | fame/glory.py:13-21 | the generator holds the user mapping and the storage |
| Glory.Generator.Cleanup | fame/glory.py:115-121 | storage becomes the cleaned storage |
| Glory.Generator.IssueBadge | fame/glory.py:69-80 | one turn of the badge loop yields entry i's render result |
| Glory.Generator.TestPage | fame/glory.py:89-92 | the line-by-line loop writes the test page of the profiles |
| Glory.Generator.IssueBadges | fame/glory.py:61-94 | the outcome and the new storage are those of `_issue_badges` as a value, from the old storage |
| Glory.Generator.Make | fame/glory.py:23-34 | sets the repo, keeps the mapping, and leaves the outcome and storage of cleanup, choice and badge issuing |
| Avatar.ParseLabel | fame/avatar.py:47-49 | a label is accepted iff it is "trending", "new" or "top" |
| Avatar.EstimateStringSize | fame/avatar.py:68-69 | a size exists iff every character is in the symbol table |
| Avatar.TotalWidthAppend | fame/avatar.py:68-69 | the width of a concatenation is the sum of the widths |
| Avatar.TotalWidthBounds | fame/avatar.py:35-38 | each character costs between 5 and 30 units |
| Avatar.MeasurableBadgeTexts | fame/avatar.py:35-38 | every label can be measured, and a count can iff it is not negative |
| Avatar.EstimateBadgeSize | fame/avatar.py:61-66 | succeeds iff both texts can be measured; then badge_w = label_w + value_w, badge_h = 50, and each part is its text's size |
| Avatar.TopBadgeWidth | fame/avatar.py:61-69 | "top" with 128 commits gives 69 + 80 = 149 by 50 |
| Avatar.BadgeGeometry | fame/avatar.py:71-86 | the value rectangle starts where the label rectangle ends; each text is centred on its rectangle; both baselines are 13 above the bottom; the viewBox is the badge size |
| Avatar.Badger.constructor | fame/avatar.py:33-45 | a new badger has no badge and zero sizes, with offset 10 |
| Avatar.Badger.MakeBadge | fame/avatar.py:47-56 | an unknown label raises and changes nothing; otherwise it records the texts and the colour, measures them, and builds the badge; a negative count fails after label_w is set |
| Avatar.Badger.EstimateSizes | fame/avatar.py:61-69 | label_w, then value_w, then the badge size are set, and a character outside the table stops it where it occurs |
| Avatar.Badger.BuildSvg | fame/avatar.py:71-86 | the badge is the filled template with its outer width, height and viewBox set |
| Avatar.FirstChildWithTag | fame/avatar.py:124-126 | the position of the first child with the tag, or none when no child has it |
| Avatar.FaceFetchUrl | fame/avatar.py:137-141 | the URL fetched starts with "http"; a relative href is prefixed with the Sourcerer origin |
| Avatar.EmbeddedFace | fame/avatar.py:128-145 | embedding keeps the root's attributes and its number of children |
| Avatar.EmbeddedFaceIsInline | fame/avatar.py:133-144 | after embedding the href starts with the base64 header, and an href that already does is left unchanged |
| Avatar.ViewBoxSize | fame/avatar.py:147-151 | a missing viewBox raises |
| Avatar.ViewBoxOfFields | fame/avatar.py:147-151 | a viewBox of four numbers gives its third and fourth as the face size |
| Avatar.GithubViewBoxNumbers | fame/svg_templates.py:10 | the GitHub template's viewBox is four numbers, the last two 200 |
| Avatar.ViewBox200 | fame/svg_templates.py:10 | the GitHub viewBox gives a 200 × 200 face |
| Avatar.GithubTemplateFace | fame/svg_templates.py:7-20 | the GitHub template is 200 × 200 and its picture is its second child |
| Avatar.Layout | fame/avatar.py:170-185 | the canvas is max(face_w, badge_w) wide and face_h + 50 + 10 high; exactly one of the face and the badge gets an x offset; both are centred on the canvas; the badge sits at face_h + 10 |
| Avatar.WithBadge | fame/avatar.py:164-185 | the nested face and the badge are the root's two children |
| Avatar.WithBadgeSteps | fame/avatar.py:167-185 | appending the badge and setting x, viewBox and y one at a time builds WithBadge |
| Avatar.AdornedShape | fame/avatar.py:102-185 | after `adorn` the label is valid, the count is not negative, and the root's children are the nested face, which keeps every original child in order at the face size, then the badge below it |
| Avatar.AvatarAdorner.constructor | fame/avatar.py:89 | a new adorner has no face image, no nested face and no badger |
| Avatar.AvatarAdorner.InitFaceImage | fame/avatar.py:124-126 | the face image is the first `<image>` child |
| Avatar.AvatarAdorner.InitWithFace | fame/avatar.py:90-94 | the document is the GitHub template with its picture's href set to the avatar URL |
| Avatar.AvatarAdorner.InitWithSourcerer | fame/avatar.py:96-100 | the document is the fetched SVG and the face image its first `<image>` child |
| Avatar.AvatarAdorner.EmbedFace | fame/avatar.py:128-145 | the document becomes the embedded one, or is left alone on an error |
| Avatar.AvatarAdorner.InitSizes | fame/avatar.py:147-151 | face_w and face_h are the viewBox size, or the call fails with the viewBox error |
| Avatar.AvatarAdorner.NestSvg | fame/avatar.py:153-162 | the loop moves every original child, in order, under one nested svg of the face's size, which becomes the only child |
| Avatar.AvatarAdorner.MakeBadge | fame/avatar.py:164-185 | the document becomes the badged nested face, or the badge error is returned |
| Avatar.AvatarAdorner.Adorn | fame/avatar.py:102-119 | the outcome and the new document are those of `adorn` as a value |
| Text.Split | fame/glory.py:17-20 | `str.split` gives one more field than separators, none of them holding the separator |
| Text.JoinSplit | fame/glory.py:17 | joining the fields of a split gives the string back |
| Text.SplitJoin | fame/glory.py:17 | splitting a join of separator-free fields gives the fields back |
| Text.Strip | fame/glory.py:17-20 | `str.strip` leaves no surrounding whitespace and never lengthens |
| Text.NatToString | fame/avatar.py:52 | `str(n)` is a nonempty string of digits |
| Text.DigitsValueOfNat | fame/avatar.py:52 | reading the digits of `str(n)` back gives n |
| Text.NatToStringInjective | fame/glory.py:82 | distinct numbers print differently |
| Text.ParseFloatOfNat | fame/avatar.py:151 | `float(str(n))` is n |
| Text.PathJoin | fame/glory.py:123-133 | `path.join` gives an absolute second part as is, and otherwise the first part followed by the second |

## Left out

- Storage backends, the filesystem and cloud storage are not modelled. The working directory is a nested map, and gallery storage is a flat map from path to file.
- Network access is not modelled: urlopen, the GitHub API, the avatar fetch and the Sourcerer SVG fetch. GitHub is a pair of functions from URL to response. The SVG fetch, the byte fetch and base64 encoding are parameter functions.
- The `Authorization` token header and `HTTPError` are not modelled. The token is stored by `Configure` and is not used further.
- JSON decoding is not modelled. API responses are typed records.
- The protobuf text format used by `load` and `save` is not modelled. Records are stored as values.
- The clock is not modelled. `utcnow()` is the `now` parameter, `isoformat()` is the `iso` parameter, and `dateparser.parse` is the `parse` parameter.
- GithubTracker.GetGithubCommits: the pagination loop can run forever on a server whose links cycle. The model follows at most `fuel` pages and reports `PageLimit` beyond that.
- GithubTracker.RepoTracker.Update: the same bound; an update whose pull needs more than `fuel` pages before the page holding the last known commit reports `PageLimit` where the source would go on. Pages after that one are never requested and do not count.
- Avatar.AvatarAdorner.Adorn: after a failure the contract does not say what the document holds; the source leaves it partly adorned.
- The generator of `_get_github_commits` and the loop consuming it are modelled as whole pages: the model requests the same pages the consumer pulls, then scans their records.
- The `except` branch for a record without author, date or avatar is not modelled. In the source it still appends a commit, built from stale or unbound fields. Records are typed, with those fields always present.
- `print` calls, the only output besides storage, are not modelled.
- ElementTree parsing and serialisation are not modelled. An SVG is a value tree.
  - The face image and the nested face are positions among the root's children, not aliased element objects.
  - `get_badge_svg_string` and `get_avatar_svg` are not modelled.
  - `register_svg_namespaces` is not modelled.
- Number formatting is not modelled. A value written with `'%.02f'` is kept as the number it prints (`Fixed`, `Box`), and a number substituted by `str.format` as `Num`.
- Avatar.ViewBoxSize: `float()` is modelled on plain decimal numerals only. Exponents, `inf`, `nan`, underscores and surrounding whitespace are not accepted.
- Text.Strip: only ASCII whitespace is stripped, not the Unicode whitespace Python also strips.
- Glory.Generator.Cleanup: `make_dirs` of the image directory is not recorded, since a flat map of files has no directories.
- Reading `users.csv` from storage is not modelled. `LoadUsers` takes its text, and the `Generator` constructor takes the resulting mapping.
- `new_contributors` is read but never computed, as in the source.
- The entry points, the TLS workaround and the test server are not part of this model.

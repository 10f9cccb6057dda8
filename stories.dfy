/**
 * The story listing of `printStories`: the stories are sorted by when they
 * last moved, each becomes a headline built around a git branch name, only
 * the newest `numberOfStories` headlines are kept, and the kept headlines are
 * joined with the trailing newlines trimmed off.
 */
module Stories {
  import opened Text

  /** A story as the search endpoint returns it. */
  datatype Story = Story(
    startedAt: string,
    name: string,
    completed: bool,
    id: int,
    createdAt: string,
    movedAt: string)

  /** The options of the `stories` command. */
  datatype StoryConfig = StoryConfig(withTimes: bool, numberOfStories: int)

  /** `x` may stand before `y` in the listing: `y` did not move earlier. */
  predicate MovedNoLater(x: Story, y: Story)
  {
    NoGreater(x.movedAt, y.movedAt)
  }

  predicate SortedByMovedAt(s: seq<Story>)
  {
    forall i, j :: 0 <= i < j < |s| ==> MovedNoLater(s[i], s[j])
  }

  /**
   * Sorts the stories in place by `movedAt`. Go's `sort.Slice` is not stable,
   * so nothing is promised about the order of stories that moved at the same
   * time: only that the result is sorted and is a rearrangement of the input.
   */
  method SortByMovedAt(a: array<Story>)
    modifies a
    ensures SortedByMovedAt(a[..])
    ensures multiset(a[..]) == multiset(old(a[..]))
  {
    var i := 0;
    while i < a.Length
      invariant 0 <= i <= a.Length
      invariant forall p, q :: 0 <= p < q < i ==> MovedNoLater(a[p], a[q])
      invariant multiset(a[..]) == multiset(old(a[..]))
    {
      InsertIntoSorted(a, i);
      i := i + 1;
    }
  }

  /** One insertion step: moves `a[i]` down into the sorted `a[..i]`. */
  method InsertIntoSorted(a: array<Story>, i: nat)
    requires i < a.Length
    requires forall p, q :: 0 <= p < q < i ==> MovedNoLater(a[p], a[q])
    modifies a
    ensures forall p, q :: 0 <= p < q <= i ==> MovedNoLater(a[p], a[q])
    ensures multiset(a[..]) == multiset(old(a[..]))
  {
    var j := i;
    while j > 0 && Less(a[j].movedAt, a[j - 1].movedAt)
      invariant 0 <= j <= i
      invariant forall p, q :: 0 <= p < q <= i && p != j && q != j ==> MovedNoLater(a[p], a[q])
      invariant forall q :: j < q <= i ==> MovedNoLater(a[j], a[q])
      invariant multiset(a[..]) == multiset(old(a[..]))
    {
      LessAsymmetric(a[j].movedAt, a[j - 1].movedAt);
      Swap(a, j - 1, j);
      j := j - 1;
    }
    forall p | 0 <= p < j
      ensures MovedNoLater(a[p], a[j])
    {
      if p < j - 1 {
        NoGreaterTransitive(a[p].movedAt, a[j - 1].movedAt, a[j].movedAt);
      }
    }
  }

  method Swap(a: array<Story>, i: nat, j: nat)
    requires i < j < a.Length
    modifies a
    ensures a[..] == old(a[..])[i := old(a[j])][j := old(a[i])]
    ensures multiset(a[..]) == multiset(old(a[..]))
  {
    a[i], a[j] := a[j], a[i];
  }

  /** The title with every space turned into a hyphen, then lower-cased. */
  function KebabCase(name: string): (r: string)
    ensures |r| == |name|
    ensures forall i :: 0 <= i < |name| ==>
      r[i] == (if name[i] == ' ' then '-' else LowerChar(name[i]))
    ensures forall i :: 0 <= i < |r| ==> r[i] != ' ' && !('A' <= r[i] <= 'Z')
  {
    ToLower(ReplaceAll(name, ' ', '-'))
  }

  /** `sc-<id>-<kebab-case title>`; it depends on the id and the title only. */
  function BranchName(id: int, name: string): (r: string)
  {
    "sc-" + Decimal(id) + "-" + KebabCase(name)
  }

  /** One line of the listing, without its newline. */
  function Line(story: Story, withTimes: bool): (r: string)
  {
    var gitBranch := BranchName(story.id, story.name);
    if withTimes then story.movedAt + ": " + gitBranch else gitBranch
  }

  /** `f` applied to each element, in order. */
  function Map<T, U>(f: T -> U, s: seq<T>): (r: seq<U>)
    ensures |r| == |s|
  {
    if s == [] then [] else Map(f, s[..|s| - 1]) + [f(s[|s| - 1])]
  }

  lemma {:induction false} MapAt<T, U>(f: T -> U, s: seq<T>, k: nat)
    requires k < |s|
    ensures Map(f, s)[k] == f(s[k])
    decreases |s|
  {
    var front := s[..|s| - 1];
    assert Map(f, s) == Map(f, front) + [f(s[|s| - 1])];
    if k < |s| - 1 {
      MapAt(f, front, k);
      assert front[k] == s[k];
    }
  }

  /** One line per story, in the stories' order. */
  function Lines(stories: seq<Story>, withTimes: bool): (r: seq<string>)
  {
    Map(story => Line(story, withTimes), stories)
  }

  function Headlines(stories: seq<Story>, withTimes: bool): (r: seq<string>)
  {
    Terminated(Lines(stories, withTimes))
  }

  /**
   * `lines[limit:]` with the clamp on `limit`: a count between 0 and the
   * number of lines keeps exactly that many of the last lines; any other
   * count keeps them all.
   */
  function KeepLast<T>(lines: seq<T>, n: int): (kept: seq<T>)
    ensures 0 <= n <= |lines| ==> |kept| == n
    ensures !(0 <= n <= |lines|) ==> kept == lines
    ensures kept == lines[|lines| - |kept|..]
  {
    var limit := if 0 <= n <= |lines| then |lines| - n else 0;
    lines[limit..]
  }

  /** The text `printStories` prints for stories that are already sorted. */
  function Listing(sorted: seq<Story>, config: StoryConfig): (r: string)
  {
    var kept := KeepLast(Headlines(sorted, config.withTimes), config.numberOfStories);
    TrimRight(Concat(kept), '\n')
  }

  /** The loop that appends one headline per story, in array order. */
  method FormatHeadlines(stories: array<Story>, withTimes: bool) returns (storyHeadlines: seq<string>)
    ensures storyHeadlines == Headlines(stories[..], withTimes)
  {
    storyHeadlines := [];
    for i := 0 to stories.Length
      invariant storyHeadlines == Headlines(stories[..i], withTimes)
    {
      assert stories[..i + 1][..i] == stories[..i];
      TerminatedAppend(Lines(stories[..i], withTimes), Line(stories[i], withTimes));
      var story := stories[i];
      var gitBranch := BranchName(story.id, story.name);
      if withTimes {
        storyHeadlines := storyHeadlines + [story.movedAt + ": " + gitBranch + "\n"];
      } else {
        storyHeadlines := storyHeadlines + [gitBranch + "\n"];
      }
    }
    assert stories[..stories.Length] == stories[..];
  }

  /**
   * Sorts the caller's stories in place and returns the text the command
   * prints (before the newline `fmt.Println` adds).
   */
  method PrintStories(stories: array<Story>, config: StoryConfig) returns (output: string)
    modifies stories
    ensures SortedByMovedAt(stories[..])
    ensures multiset(stories[..]) == multiset(old(stories[..]))
    ensures output == Listing(stories[..], config)
  {
    SortByMovedAt(stories);
    var storyHeadlines := FormatHeadlines(stories, config.withTimes);
    var limit := 0;
    if 0 <= config.numberOfStories <= |storyHeadlines| {
      limit := |storyHeadlines| - config.numberOfStories;
    }
    assert storyHeadlines[limit..] == KeepLast(storyHeadlines, config.numberOfStories);
    storyHeadlines := storyHeadlines[limit..];
    output := TrimRight(Concat(storyHeadlines), '\n');
  }

  /** No story of the listing moved at the same time as another. */
  predicate DistinctMovedAt(s: seq<Story>)
  {
    forall i, j :: 0 <= i < j < |s| ==> s[i].movedAt != s[j].movedAt
  }

  /** Two sorted arrangements of the same stories start with the same story. */
  lemma SortedHeadsAgree(a: seq<Story>, b: seq<Story>)
    requires a != [] && SortedByMovedAt(a) && SortedByMovedAt(b)
    requires multiset(a) == multiset(b)
    requires DistinctMovedAt(a)
    ensures b != [] && a[0] == b[0]
  {
    assert a[0] in multiset(b);
    var k :| 0 <= k < |b| && b[k] == a[0];
    assert b[0] in multiset(a);
    var m :| 0 <= m < |a| && a[m] == b[0];
    if m != 0 {
      assert MovedNoLater(a[0], a[m]);
      assert MovedNoLater(b[0], b[k]);
      NoGreaterTotal(a[0].movedAt, a[m].movedAt);
      assert false;
    }
  }

  /** Taking the same first story off both keeps the tails equal as multisets,
      sorted and, on the left, with distinct times. */
  lemma DropHead(a: seq<Story>, b: seq<Story>)
    requires a != [] && b != [] && a[0] == b[0]
    requires multiset(a) == multiset(b)
    requires SortedByMovedAt(a) && SortedByMovedAt(b) && DistinctMovedAt(a)
    ensures multiset(a[1..]) == multiset(b[1..])
    ensures SortedByMovedAt(a[1..]) && SortedByMovedAt(b[1..]) && DistinctMovedAt(a[1..])
  {
    assert multiset(a[1..]) == multiset(b[1..]) by {
      assert a == [a[0]] + a[1..] && b == [b[0]] + b[1..];
      assert multiset(a[1..]) == multiset(a) - multiset{a[0]};
      assert multiset(b[1..]) == multiset(b) - multiset{b[0]};
    }
  }

  /**
   * When no two stories moved at the same time, there is only one sorted
   * arrangement of them, so the unstable sort still fixes the listing.
   */
  lemma {:induction false} SortedUnique(a: seq<Story>, b: seq<Story>)
    requires SortedByMovedAt(a) && SortedByMovedAt(b)
    requires multiset(a) == multiset(b)
    requires DistinctMovedAt(a)
    ensures a == b
    decreases |a|
  {
    if a == [] {
      assert |b| == |multiset(b)| == 0;
    } else {
      SortedHeadsAgree(a, b);
      DropHead(a, b);
      SortedUnique(a[1..], b[1..]);
    }
  }

  /** Truncating terminated lines is truncating the lines and terminating each. */
  lemma KeepLastTerminated(lines: seq<string>, n: int)
    ensures KeepLast(Terminated(lines), n) == Terminated(KeepLast(lines, n))
  {
    var kept := KeepLast(lines, n);
    var keptTerminated := KeepLast(Terminated(lines), n);
    assert |keptTerminated| == |kept|;
    forall k | 0 <= k < |kept|
      ensures keptTerminated[k] == kept[k] + "\n"
    {
    }
  }

  /** A line ends in a newline only if the story's title does. */
  lemma LineEnd(story: Story, withTimes: bool)
    requires !HasSuffix(story.name, "\n")
    ensures EndsBeforeNewline(Line(story, withTimes))
  {
    var kebab := KebabCase(story.name);
    var branch := BranchName(story.id, story.name);
    var line := Line(story, withTimes);
    assert line[|line| - 1] == branch[|branch| - 1];
    if story.name == [] {
      assert branch[|branch| - 1] == '-';
    } else {
      assert branch[|branch| - 1] == kebab[|kebab| - 1];
    }
  }

  /** The truncate, join and trim steps, on any lines. */
  lemma KeptLinesJoined(lines: seq<string>, n: int)
    requires lines == [] || EndsBeforeNewline(lines[|lines| - 1])
    ensures TrimRight(Concat(KeepLast(Terminated(lines), n)), '\n') == JoinLines(KeepLast(lines, n))
  {
    var kept := KeepLast(lines, n);
    KeepLastTerminated(lines, n);
    if kept != [] {
      assert kept[|kept| - 1] == lines[|lines| - 1];
    }
    TrimTerminated(kept);
  }

  /** The newest story's line ends like its title. */
  lemma LastLineEnd(sorted: seq<Story>, withTimes: bool)
    requires sorted != [] && !HasSuffix(sorted[|sorted| - 1].name, "\n")
    ensures var lines := Lines(sorted, withTimes); lines != [] && EndsBeforeNewline(lines[|lines| - 1])
  {
    LineEnd(sorted[|sorted| - 1], withTimes);
  }

  /** The listing has one line per story, the story's own, in order. */
  lemma LinesAt(stories: seq<Story>, withTimes: bool, k: nat)
    requires k < |stories|
    ensures |Lines(stories, withTimes)| == |stories|
    ensures Lines(stories, withTimes)[k] == Line(stories[k], withTimes)
  {
    MapAt(story => Line(story, withTimes), stories, k);
  }

  /**
   * The listing reads as the kept lines joined with newlines. That is what
   * the code prints, as long as the newest story's title does not itself end
   * in a newline (which the trim would also eat).
   */
  lemma ListingJoinsLines(sorted: seq<Story>, config: StoryConfig)
    requires sorted == [] || !HasSuffix(sorted[|sorted| - 1].name, "\n")
    ensures Listing(sorted, config) == JoinLines(KeepLast(Lines(sorted, config.withTimes), config.numberOfStories))
  {
    if sorted != [] {
      LastLineEnd(sorted, config.withTimes);
    }
    KeptLinesJoined(Lines(sorted, config.withTimes), config.numberOfStories);
  }

  /** No stories, or a count of zero, print an empty line; the printed text
      never ends in a newline of its own. */
  lemma ListingEdges(sorted: seq<Story>, config: StoryConfig)
    ensures sorted == [] ==> Listing(sorted, config) == ""
    ensures config.numberOfStories == 0 ==> Listing(sorted, config) == ""
    ensures Listing(sorted, config) == "" || EndsBeforeNewline(Listing(sorted, config))
  {
  }

  /**
   * The branch name gives back the story's id: two stories with the same
   * branch name have the same id and the same kebab-case title.
   */
  lemma BranchNameInjective(id1: int, name1: string, id2: int, name2: string)
    requires BranchName(id1, name1) == BranchName(id2, name2)
    ensures id1 == id2 && KebabCase(name1) == KebabCase(name2)
  {
    var d1, d2 := Decimal(id1), Decimal(id2);
    var b := BranchName(id1, name1);
    DecimalRoundTrip(id1);
    DecimalRoundTrip(id2);
    assert b == "sc-" + d1 + "-" + KebabCase(name1);
    assert b == "sc-" + d2 + "-" + KebabCase(name2);
    assert b[3 + |d1|] == '-' && b[3 + |d2|] == '-';
    assert forall i :: 0 <= i < |d1| ==> b[3 + i] == d1[i];
    assert forall i :: 0 <= i < |d2| ==> b[3 + i] == d2[i];
    if |d1| != |d2| {
      assert false;
    }
    assert d1 == b[3..3 + |d1|] == d2;
    assert KebabCase(name1) == b[4 + |d1|..] == KebabCase(name2);
    DecimalInjective(id1, id2);
  }
}

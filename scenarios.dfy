/**
 * The worked examples of the story listing: three stories, listed with
 * a count of two and with a count larger than the list.
 */
module Scenarios {
  import opened Text
  import opened Stories

  const FixBug := Story("", "Fix bug", false, 1, "", "2024-01-01")
  const AddFeature := Story("", "Add Feature", false, 2, "", "2024-01-03")
  const PolishUi := Story("", "Polish UI", false, 3, "", "2024-01-02")

  /** The three stories in the order the search returns them. */
  function Fetched(): (s: seq<Story>)
  {
    [FixBug, AddFeature, PolishUi]
  }

  lemma DatesOrdered()
    ensures Less("2024-01-01", "2024-01-02")
    ensures Less("2024-01-02", "2024-01-03")
    ensures Less("2024-01-01", "2024-01-03")
  {
    LessAt("2024-01-01", "2024-01-02", 9);
    LessAt("2024-01-02", "2024-01-03", 9);
    LessAt("2024-01-01", "2024-01-03", 9);
  }

  /** The three stories oldest first. */
  function Oldest(): (s: seq<Story>)
  {
    [FixBug, PolishUi, AddFeature]
  }

  /** Three stories whose times strictly increase are sorted with distinct times. */
  lemma IncreasingThree(a: Story, b: Story, c: Story)
    requires Less(a.movedAt, b.movedAt) && Less(b.movedAt, c.movedAt)
    ensures SortedByMovedAt([a, b, c]) && DistinctMovedAt([a, b, c])
  {
    LessTransitive(a.movedAt, b.movedAt, c.movedAt);
    LessAsymmetric(a.movedAt, b.movedAt);
    LessAsymmetric(b.movedAt, c.movedAt);
    LessAsymmetric(a.movedAt, c.movedAt);
    LessIrreflexive(a.movedAt);
    LessIrreflexive(b.movedAt);
  }

  lemma OldestSorted()
    ensures SortedByMovedAt(Oldest()) && DistinctMovedAt(Oldest())
  {
    DatesOrdered();
    IncreasingThree(FixBug, PolishUi, AddFeature);
  }

  lemma OldestRearranged()
    ensures multiset(Oldest()) == multiset(Fetched())
  {
  }

  /** Any sorted arrangement of the three stories is oldest first. */
  lemma FetchedSorted(sorted: seq<Story>)
    requires SortedByMovedAt(sorted) && multiset(sorted) == multiset(Fetched())
    ensures sorted == Oldest()
  {
    OldestSorted();
    OldestRearranged();
    SortedUnique(Oldest(), sorted);
  }

  lemma KebabFixBug()
    ensures KebabCase("Fix bug") == "fix-bug"
  {
  }

  lemma KebabAddFeature()
    ensures KebabCase("Add Feature") == "add-feature"
  {
  }

  lemma KebabPolishUi()
    ensures KebabCase("Polish UI") == "polish-ui"
  {
  }

  lemma SmallDecimals()
    ensures Decimal(1) == "1" && Decimal(2) == "2" && Decimal(3) == "3"
  {
  }

  lemma BranchNames()
    ensures BranchName(1, "Fix bug") == "sc-1-fix-bug"
    ensures BranchName(2, "Add Feature") == "sc-2-add-feature"
    ensures BranchName(3, "Polish UI") == "sc-3-polish-ui"
  {
    BranchFixBug();
    BranchAddFeature();
    BranchPolishUi();
  }

  lemma BranchFixBug()
    ensures BranchName(1, "Fix bug") == "sc-1-fix-bug"
  {
    SmallDecimals();
    KebabFixBug();
  }

  lemma BranchAddFeature()
    ensures BranchName(2, "Add Feature") == "sc-2-add-feature"
  {
    SmallDecimals();
    KebabAddFeature();
  }

  lemma BranchPolishUi()
    ensures BranchName(3, "Polish UI") == "sc-3-polish-ui"
  {
    SmallDecimals();
    KebabPolishUi();
  }

  lemma OldestLines()
    ensures Lines(Oldest(), false) == ["sc-1-fix-bug", "sc-3-polish-ui", "sc-2-add-feature"]
  {
    BranchNames();
    assert [FixBug][..0] == [];
    assert Lines([FixBug], false) == ["sc-1-fix-bug"];
    assert [FixBug, PolishUi][..1] == [FixBug];
    assert Lines([FixBug, PolishUi], false) == ["sc-1-fix-bug", "sc-3-polish-ui"];
    assert Oldest()[..2] == [FixBug, PolishUi];
  }

  lemma JoinThree(a: string, b: string, c: string)
    ensures JoinLines([a, b, c]) == a + "\n" + b + "\n" + c
  {
    assert [a, b, c][..2] == [a, b] && [a, b][..1] == [a];
    assert JoinLines([a]) == a;
    assert JoinLines([a, b]) == a + "\n" + b;
  }

  lemma AllThreeJoined()
    ensures JoinLines(["sc-1-fix-bug", "sc-3-polish-ui", "sc-2-add-feature"])
      == "sc-1-fix-bug\nsc-3-polish-ui\nsc-2-add-feature"
  {
    var a, b, c := "sc-1-fix-bug", "sc-3-polish-ui", "sc-2-add-feature";
    JoinThree(a, b, c);
    assert a + "\n" + b == "sc-1-fix-bug\nsc-3-polish-ui";
  }

  /** The listing of the sorted stories is their lines joined: no title ends in a newline. */
  lemma OldestListing(n: int)
    ensures Listing(Oldest(), StoryConfig(false, n)) == JoinLines(KeepLast(Lines(Oldest(), false), n))
  {
    assert Oldest()[2].name == "Add Feature";
    ListingJoinsLines(Oldest(), StoryConfig(false, n));
  }

  lemma NewestTwoLines()
    ensures KeepLast(Lines(Oldest(), false), 2) == ["sc-3-polish-ui", "sc-2-add-feature"]
  {
    OldestLines();
  }

  lemma NewestTwoJoined()
    ensures JoinLines(["sc-3-polish-ui", "sc-2-add-feature"]) == "sc-3-polish-ui\nsc-2-add-feature"
  {
    var a, b := "sc-3-polish-ui", "sc-2-add-feature";
    assert [a, b][..1] == [a];
    assert JoinLines([a, b]) == a + "\n" + b;
  }

  /** A count of two keeps the two stories that moved last, oldest first. */
  lemma NewestTwo(sorted: seq<Story>)
    requires SortedByMovedAt(sorted) && multiset(sorted) == multiset(Fetched())
    ensures Listing(sorted, StoryConfig(false, 2)) == "sc-3-polish-ui\nsc-2-add-feature"
  {
    FetchedSorted(sorted);
    OldestListing(2);
    NewestTwoLines();
    NewestTwoJoined();
  }

  lemma AllThreeLines()
    ensures KeepLast(Lines(Oldest(), false), 10) == ["sc-1-fix-bug", "sc-3-polish-ui", "sc-2-add-feature"]
  {
    OldestLines();
  }

  /** A count larger than the list keeps every story. */
  lemma CountAboveLength(sorted: seq<Story>)
    requires SortedByMovedAt(sorted) && multiset(sorted) == multiset(Fetched())
    ensures Listing(sorted, StoryConfig(false, 10)) == "sc-1-fix-bug\nsc-3-polish-ui\nsc-2-add-feature"
  {
    FetchedSorted(sorted);
    OldestListing(10);
    AllThreeLines();
    AllThreeJoined();
  }

  /** The command run on the three stories as fetched. */
  method PrintFetched() returns (output: string)
    ensures output == "sc-3-polish-ui\nsc-2-add-feature"
  {
    var stories := new Story[3][FixBug, AddFeature, PolishUi];
    assert stories[..] == Fetched();
    output := PrintStories(stories, StoryConfig(false, 2));
    NewestTwo(stories[..]);
  }
}

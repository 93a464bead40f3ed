/**
 * The group list and the collection of its members: GroupManager, with the steps other classes
 * drive it through.
 */
module GroupRoster {
  import opened Basics
  import opened PttState

  /** What happens to the group manager: an event for each caller that changes it. */
  datatype RosterEvent =
    | Listed(numbers: seq<string>)                       // PTTService.JNIAddGroupInfo
    | Answered(number: string, members: seq<string>)     // PTTService.JNIReceiveMemberInfo
    | Announced                                          // a dynamic regrouping was announced
    | Asked                                              // GroupActivity asks for all members again
    | Dropped                                            // registration was lost

  function Relisted(g: Groups, numbers: seq<string>): Groups {
    if numbers == [] then g.(list := [], members := map[]) else g.(list := numbers)
  }

  function Answer(g: Groups, number: string, members: seq<string>): Groups {
    if number in g.members then g else g.(members := g.members[number := members])
  }

  function RosterStep(g: Groups, e: RosterEvent): Groups {
    match e
    case Listed(numbers) =>
      var g' := Relisted(g, numbers);
      if g.dynamic then g'.(members := map[], dynamic := false) else g'
    case Answered(number, members) => Answer(g, number, members)
    case Announced => g.(dynamic := true)
    case Asked => g.(members := map[])
    case Dropped => Groups([], map[], false)
  }

  /** GroupManager.checkReceiveAll: sizes only. */
  predicate ReceivedAll(g: Groups) {
    |g.members| == |g.list|
  }

  /** What it is asked for: every listed group has its members. */
  predicate Complete(g: Groups) {
    forall n :: n in g.list ==> n in g.members
  }

  ghost predicate Distinct(list: seq<string>) {
    forall i, j :: 0 <= i < j < |list| ==> list[i] != list[j]
  }

  /** Members are kept for listed groups only. */
  ghost predicate Tidy(g: Groups) {
    forall n :: n in g.members ==> n in g.list
  }

  function Elements(list: seq<string>): set<string> {
    set n | n in list
  }

  lemma {:induction false} ElementsCount(list: seq<string>)
    ensures |Elements(list)| <= |list|
    ensures |Elements(list)| == |list| <==> Distinct(list)
  {
    if list == [] {
      assert Elements(list) == {};
    } else {
      var front, last := list[..|list| - 1], list[|list| - 1];
      assert list == front + [last];
      ElementsCount(front);
      assert Elements(list) == Elements(front) + {last};
      if last in front {
        assert Elements(list) == Elements(front);
        var i :| 0 <= i < |front| && front[i] == last;
        assert list[i] == list[|list| - 1];
      } else if Distinct(front) {
        assert Distinct(list);
      } else {
        var i, j :| 0 <= i < j < |front| && front[i] == front[j];
        assert list[i] == list[j];
      }
    }
  }

  lemma SubsetOfSameSize(a: set<string>, b: set<string>)
    requires a <= b
    ensures |a| <= |b| && (|a| == |b| ==> a == b)
  {
    assert b == a + (b - a);
  }

  /** Comparing sizes answers the question exactly when no number is listed twice. */
  lemma SizeTellsCompleteness(g: Groups)
    requires Tidy(g)
    ensures ReceivedAll(g) <==> Complete(g) && Distinct(g.list)
  {
    var keys, all := g.members.Keys, Elements(g.list);
    ElementsCount(g.list);
    SubsetOfSameSize(keys, all);
    if Complete(g) {
      assert keys == all;
    }
  }

  // ---------- which steps keep the members tidy ----------

  /** An answer for a group that is not listed, or a plain new list that drops an answered group. */
  ghost predicate Strays(g: Groups, e: RosterEvent) {
    match e
    case Answered(number, _) => number !in g.list
    case Listed(numbers) => numbers != [] && !g.dynamic && exists n :: n in g.members && n !in numbers
    case _ => false
  }

  lemma StepTidy(g: Groups, e: RosterEvent)
    requires Tidy(g)
    ensures Tidy(RosterStep(g, e)) <==> !Strays(g, e)
  {
    var g' := RosterStep(g, e);
    if e.Answered? && e.number !in g.list {
      assert e.number in g'.members;
    }
  }

  // What each step leaves: a list replaces the old one, and takes the members along only when it is empty
  // or was announced; an answer counts once; an announcement lasts until the next list.
  lemma RosterLaw(g: Groups, e: RosterEvent)
    ensures
      var g' := RosterStep(g, e);
      match e
      case Listed(numbers) =>
        g'.list == numbers && !g'.dynamic && g'.members == if numbers == [] || g.dynamic then map[] else g.members
      case Answered(n, members) =>
        g'.list == g.list && g'.dynamic == g.dynamic && n in g'.members
        && (forall k :: k in g.members ==> k in g'.members && g'.members[k] == g.members[k])
        && (forall k :: k in g'.members ==> k in g.members || (k == n && g'.members[k] == members))
      case Announced => g'.list == g.list && g'.members == g.members && g'.dynamic
      case Asked => g'.list == g.list && g'.members == map[] && g'.dynamic == g.dynamic
      case Dropped => g'.list == [] && g'.members == map[] && !g'.dynamic
  {
  }

  function RosterRun(g: Groups, es: seq<RosterEvent>): Groups
    decreases |es|
  {
    if es == [] then g else RosterRun(RosterStep(g, es[0]), es[1..])
  }

  ghost predicate NeverStrays(g: Groups, es: seq<RosterEvent>)
    decreases |es|
  {
    es == [] || (!Strays(g, es[0]) && NeverStrays(RosterStep(g, es[0]), es[1..]))
  }

  /** After any run of the group manager without a stray step, the size test tells the truth. */
  lemma {:induction false} RunTellsCompleteness(g: Groups, es: seq<RosterEvent>)
    requires Tidy(g) && NeverStrays(g, es)
    ensures var last := RosterRun(g, es);
            Tidy(last) && (ReceivedAll(last) <==> Complete(last) && Distinct(last.list))
    decreases |es|
  {
    if es == [] {
      SizeTellsCompleteness(g);
    } else {
      StepTidy(g, es[0]);
      RunTellsCompleteness(RosterStep(g, es[0]), es[1..]);
    }
  }

  /** A plain new list keeps answers of groups that left it, and they count as answers of the new ones. */
  lemma StaleAnswersCount()
    ensures var es := [Listed(["7"]), Answered("7", []), Listed(["8"])];
            var last := RosterRun(Groups([], map[], false), es);
            ReceivedAll(last) && "8" in last.list && "8" !in last.members
  {
    var es := [Listed(["7"]), Answered("7", []), Listed(["8"])];
    var g1 := Groups(["7"], map[], false);
    var g2 := Groups(["7"], map["7" := []], false);
    assert RosterRun(g2, es[2..]) == RosterStep(g2, es[2]);
    assert RosterRun(g1, es[1..]) == RosterRun(g2, es[1..][1..]);
    assert es[1..][1..] == es[2..];
  }

  // ---------- any order of answers, with repeats ----------

  datatype Reply = Reply(number: string, members: seq<string>)

  function Collected(g: Groups, replies: seq<Reply>): Groups
    decreases |replies|
  {
    if replies == [] then g
    else Collected(Answer(g, replies[0].number, replies[0].members), replies[1..])
  }

  // The answer a number keeps: what it had, or else its first reply.
  function FirstReply(g: Groups, replies: seq<Reply>, number: string): Option<seq<string>> {
    if number in g.members then Some(g.members[number])
    else if replies == [] then None
    else if replies[0].number == number then Some(replies[0].members)
    else FirstReply(g, replies[1..], number)
  }

  lemma {:induction false} FirstReplyStays(g: Groups, replies: seq<Reply>, number: string)
    ensures var last := Collected(g, replies);
            last.list == g.list
            && FirstReply(g, replies, number)
               == if number in last.members then Some(last.members[number]) else None
    decreases |replies|
  {
    if replies != [] {
      var next := Answer(g, replies[0].number, replies[0].members);
      FirstReplyStays(next, replies[1..], number);
      FirstReplyAfter(g, replies, number);
    }
  }

  lemma {:induction false} FirstReplyAfter(g: Groups, replies: seq<Reply>, number: string)
    requires replies != []
    ensures FirstReply(Answer(g, replies[0].number, replies[0].members), replies[1..], number)
         == FirstReply(g, replies, number)
  {
    var next := Answer(g, replies[0].number, replies[0].members);
    if number !in next.members {
      OnlyMembershipMatters(g, next, replies[1..], number);
    }
  }

  lemma {:induction false} OnlyMembershipMatters(g: Groups, h: Groups, replies: seq<Reply>, number: string)
    requires number !in g.members && number !in h.members
    ensures FirstReply(g, replies, number) == FirstReply(h, replies, number)
  {
    if replies != [] {
      OnlyMembershipMatters(g, h, replies[1..], number);
    }
  }

  lemma {:induction false} RepliedMeansFound(g: Groups, replies: seq<Reply>, number: string)
    requires number !in g.members
    ensures FirstReply(g, replies, number).Some? <==> exists k :: 0 <= k < |replies| && replies[k].number == number
  {
    if replies != [] {
      RepliedMeansFound(g, replies[1..], number);
      if k :| 0 <= k < |replies| && replies[k].number == number {
        assert k > 0 ==> replies[1..][k - 1].number == number;
      }
      if j :| 0 <= j < |replies[1..]| && replies[1..][j].number == number {
        assert replies[j + 1].number == number;
      }
    }
  }

  ghost predicate Replied(replies: seq<Reply>, number: string) {
    exists k :: 0 <= k < |replies| && replies[k].number == number
  }

  /**
   * Asking anew and receiving replies for listed groups only, in any order and with any repeats: the
   * size test turns true exactly when every group has replied, and each keeps its first reply.
   */
  lemma RepliesComplete(g: Groups, replies: seq<Reply>)
    requires g.members == map[] && Distinct(g.list)
    requires forall k :: 0 <= k < |replies| ==> replies[k].number in g.list
    ensures var last := Collected(g, replies);
            ReceivedAll(last) <==> forall n :: n in g.list ==> Replied(replies, n)
  {
    var last := Collected(g, replies);
    forall n
      ensures last.list == g.list && (n in last.members <==> Replied(replies, n))
    {
      FirstReplyStays(g, replies, n);
      RepliedMeansFound(g, replies, n);
    }
    SizeTellsCompleteness(last);
  }

  // ---------- the class ----------

  class GroupManager {
    var list: seq<string>
    var members: map<string, seq<string>>
    var dynamic: bool

    constructor ()
      ensures Value() == Groups([], map[], false)
    {
      list, members, dynamic := [], map[], false;
    }

    ghost function Value(): Groups
      reads this
    {
      Groups(list, members, dynamic)
    }

    method AddGroups(groupInfos: seq<string>)
      modifies `list
      ensures list == groupInfos
    {
      list := [];
      for i := 0 to |groupInfos|
        invariant list == groupInfos[..i]
      {
        list := list + [groupInfos[i]];
      }
    }

    method AddReceivedMembers(grpNumber: string, received: seq<string>)
      modifies `members
      ensures Value() == Answer(old(Value()), grpNumber, received)
    {
      if grpNumber in members {
        // The first answer stays.
      } else {
        members := members[grpNumber := received];
      }
    }

    method CheckReceiveAll() returns (all: bool)
      ensures all <==> ReceivedAll(Value())
    {
      all := |members| == |list|;
    }

    method Clear()
      modifies this
      ensures Value() == RosterStep(old(Value()), Dropped)
    {
      members := map[];
      list := [];
      dynamic := false;
    }

    method ClearNumMemberMap()
      modifies `members
      ensures Value() == RosterStep(old(Value()), Asked)
    {
      members := map[];
    }

    /** PTTService.JNIReceiveMemberInfo: whether the interface is told that all members are in. */
    method ReceiveMemberInfo(groupNum: string, received: seq<string>) returns (told: bool)
      modifies `members
      ensures Value() == RosterStep(old(Value()), Answered(groupNum, received))
      ensures told <==> ReceivedAll(Value())
    {
      AddReceivedMembers(groupNum, received);
      told := CheckReceiveAll();
    }
  }
}

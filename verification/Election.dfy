/** How one generation of the group makes at most one node primary. */
module Election {
  import opened Wrappers
  import opened Identity
  import opened IdentityKeys

  datatype NodeIdentity = NodeIdentity(host: string, port: int, eligible: bool, scheme: string, version: int)

  datatype Member = Member(id: string, identity: NodeIdentity)

  function Url(n: NodeIdentity): string { n.scheme + "://" + n.host + ":" + Decimal(n.port) }

  /** The eligible member whose URL sorts first; the earlier of two with one URL. */
  function SelectMaster(members: seq<Member>): Option<Member> {
    if members == [] then None
    else
      var first, rest := members[0], SelectMaster(members[1..]);
      if !first.identity.eligible then rest
      else if rest.None? || Leq(Url(first.identity), Url(rest.value.identity)) then Some(first) else rest
  }

  ghost predicate Eligible(members: seq<Member>, m: Member) { m in members && m.identity.eligible }

  lemma {:induction false} SelectedIsLeast(members: seq<Member>)
    ensures match SelectMaster(members)
            case Some(m) => Eligible(members, m) && forall x :: Eligible(members, x) ==>
                Leq(Url(m.identity), Url(x.identity))
            case None => forall x :: !Eligible(members, x)
  {
    if members != [] {
      var first, rest := members[0], SelectMaster(members[1..]);
      assert members == [first] + members[1..];
      SelectedIsLeast(members[1..]);
      assert forall x :: Eligible(members, x) <==> (x == first && first.identity.eligible) || Eligible(members[1..], x);
      LeqTotal(Url(first.identity), Url(first.identity));
      if first.identity.eligible && rest.Some? {
        LeqTotal(Url(first.identity), Url(rest.value.identity));
        forall x | Eligible(members[1..], x) && Leq(Url(first.identity), Url(rest.value.identity))
          ensures Leq(Url(first.identity), Url(x.identity))
        {
          LeqTransitive(Url(first.identity), Url(rest.value.identity), Url(x.identity));
        }
      }
    }
  }

  /** Of several eligible members with one URL it is the one listed first. */
  lemma {:induction false} SelectedIsFirst(members: seq<Member>)
    ensures SelectMaster(members).Some? ==>
              exists i :: 0 <= i < |members| && members[i] == SelectMaster(members).value &&
                forall j :: 0 <= j < i && members[j].identity.eligible ==>
                  !Leq(Url(members[j].identity), Url(members[i].identity))
  {
    if members != [] {
      var first, rest := members[0], SelectMaster(members[1..]);
      SelectedIsFirst(members[1..]);
      if SelectMaster(members) == Some(first) && first.identity.eligible
         && (rest.None? || Leq(Url(first.identity), Url(rest.value.identity))) {
        assert members[0] == first;
      } else if rest.Some? {
        var i :| 0 <= i < |members[1..]| && members[1..][i] == rest.value &&
          forall j :: 0 <= j < i && members[1..][j].identity.eligible ==>
            !Leq(Url(members[1..][j].identity), Url(members[1..][i].identity));
        assert members[i + 1] == rest.value;
        forall j | 0 <= j < i + 1 && members[j].identity.eligible
          ensures !Leq(Url(members[j].identity), Url(members[i + 1].identity))
        {
          if j > 0 { assert members[j] == members[1..][j - 1]; }
        }
      }
    }
  }

  /** The choice does not depend on the order in which the coordinator lists the members. */
  lemma SelectionIgnoresOrder(a: seq<Member>, b: seq<Member>)
    requires forall m :: m in a <==> m in b
    requires forall x, y :: Eligible(a, x) && Eligible(a, y) && Url(x.identity) == Url(y.identity) ==> x == y
    ensures SelectMaster(a) == SelectMaster(b)
  {
    SelectedIsLeast(a);
    SelectedIsLeast(b);
    assert forall m :: Eligible(a, m) <==> Eligible(b, m);
    if SelectMaster(a).Some? && SelectMaster(b).Some? {
      LeqTotal(Url(SelectMaster(a).value.identity), Url(SelectMaster(b).value.identity));
    }
  }

  /** What a node publishes on the assignment its generation's leader broadcasts. */
  datatype PrimaryState = PrimaryState(isPrimary: bool, primaryUrl: Option<string>, generation: Option<int>)

  function Publish(self: NodeIdentity, master: Option<Member>, generation: int): PrimaryState {
    var isPrimary := master.Some? && master.value.identity == self;
    PrimaryState(isPrimary, if master.Some? then Some(Url(master.value.identity))
                            else None, if isPrimary then Some(generation) else None)
  }

  /** Of nodes with distinct identities that receive one generation's assignment at most one becomes
      primary, and only an eligible one; some node does when an eligible member takes part. */
  lemma OnePrimaryPerGeneration(members: seq<Member>, generation: int, nodes: seq<NodeIdentity>, i: nat, j: nat)
    requires i < |nodes| && j < |nodes| && forall x, y :: 0 <= x < y < |nodes| ==> nodes[x] != nodes[y]
    ensures var master := SelectMaster(members);
            && (Publish(nodes[i], master, generation).isPrimary && Publish(nodes[j], master, generation).isPrimary ==>
                i == j)
            && (Publish(nodes[i], master, generation).isPrimary ==>
                nodes[i].eligible && Publish(nodes[i], master, generation).generation == Some(generation))
            && ((forall m <- members :: m.identity in nodes) && (exists m :: Eligible(members, m)) ==>
                exists n <- nodes :: Publish(n, master, generation).isPrimary)
  {
    SelectedIsLeast(members);
  }
}

/** Who of a group of users has agreed to what. */
module Agreement {
  import opened MatchDatabases

  /** What can be agreed to in a game room. */
  datatype Topic = ToDraw | ToCancel | ToAdjourn | ToMove

  class Agreements {
    var users: set<Jid>
    var agreements: map<Topic, set<Jid>>

    ghost predicate Valid()
      reads this
    {
      forall topic :: topic in agreements ==> agreements[topic] <= users
    }

    function AgreedTo(topic: Topic): set<Jid>
      reads this
    {
      if topic in agreements then agreements[topic] else {}
    }

    constructor ()
      ensures Valid() && users == {} && forall topic :: AgreedTo(topic) == {}
    {
      users, agreements := {}, map[];
    }

    method Insert(user: Jid)
      requires Valid()
      modifies this`users
      ensures Valid() && users == old(users) + {user}
    {
      users := users + {user};
    }

    /** Notes that a user agrees; true if that is new. Strangers are not noted. */
    method Agreed(topic: Topic, user: Jid) returns (isNew: bool)
      requires Valid()
      modifies this`agreements
      ensures Valid()
      ensures isNew == (user in users && user !in old(AgreedTo(topic)))
      ensures AgreedTo(topic) == old(AgreedTo(topic)) + (if user in users then {user} else {})
      ensures forall other :: other != topic ==> AgreedTo(other) == old(AgreedTo(other))
    {
      if user !in users {
        return false;
      }
      var agreement := AgreedTo(topic);
      agreements := agreements[topic := agreement + {user}];
      isNew := user !in agreement;
    }

    method AgreedCount(topic: Topic) returns (n: nat)
      ensures n == |AgreedTo(topic)|
    {
      n := if topic in agreements then |agreements[topic]| else 0;
    }

    /** How many have not agreed: none exactly when everybody has. */
    method LeftCount(topic: Topic) returns (n: int)
      requires Valid()
      ensures n == |users - AgreedTo(topic)|
      ensures n == 0 <==> AgreedTo(topic) == users
    {
      var agreed := AgreedCount(topic);
      n := |users| - agreed;
      SizeOfRest(users, AgreedTo(topic));
    }

    method Clear(topic: Topic)
      requires Valid()
      modifies this`agreements
      ensures Valid() && AgreedTo(topic) == {}
      ensures forall other :: other != topic ==> AgreedTo(other) == old(AgreedTo(other))
    {
      agreements := agreements - {topic};
    }
  }

  lemma SizeOfRest(all: set<Jid>, part: set<Jid>)
    requires part <= all
    ensures |all - part| == |all| - |part|
    ensures |all - part| == 0 <==> part == all
  {
  }

  // ----- a log of what was said -----

  datatype Said = Agrees(topic: Topic, user: Jid) | Declines(topic: Topic)

  function Next(agreed: set<Jid>, said: Said, topic: Topic): set<Jid> {
    if said.topic != topic then agreed
    else if said.Agrees? then agreed + {said.user}
    else {}
  }

  /** Who has agreed to something since it was last declined. */
  function Since(log: seq<Said>, topic: Topic): set<Jid> {
    if log == [] then {} else Next(Since(log[..|log| - 1], topic), log[|log| - 1], topic)
  }

  lemma SinceMore(log: seq<Said>, said: Said, topic: Topic)
    ensures Since(log + [said], topic) == Next(Since(log, topic), said, topic)
  {
  }

  /** The user agreed with entry `i` of the log, and nobody has declined since. */
  ghost predicate Stands(log: seq<Said>, topic: Topic, user: Jid, i: int) {
    0 <= i < |log| && log[i] == Agrees(topic, user) && Declines(topic) !in log[i..]
  }

  lemma StandsOn(log: seq<Said>, said: Said, topic: Topic, user: Jid, i: int)
    requires 0 <= i < |log|
    ensures Stands(log + [said], topic, user, i) <==> Stands(log, topic, user, i) && said != Declines(topic)
  {
    assert (log + [said])[i..] == log[i..] + [said];
  }

  lemma StandsLast(log: seq<Said>, said: Said, topic: Topic, user: Jid)
    ensures Stands(log + [said], topic, user, |log|) <==> said == Agrees(topic, user)
  {
  }

  /** A user counts as agreed exactly when some agreement of that user is not followed by a decline. */
  lemma {:induction false} SinceMeans(log: seq<Said>, topic: Topic, user: Jid)
    ensures user in Since(log, topic) <==> exists i :: Stands(log, topic, user, i)
    decreases |log|
  {
    if log == [] {
      assert forall i :: !Stands(log, topic, user, i);
    } else {
      var n := |log| - 1;
      var before, said := log[..n], log[n];
      assert log == before + [said];
      SinceMeans(before, topic, user);
      SinceMore(before, said, topic);
      StandsLast(before, said, topic, user);
      forall i | 0 <= i < n
        ensures Stands(log, topic, user, i) <==> Stands(before, topic, user, i) && said != Declines(topic)
      {
        StandsOn(before, said, topic, user, i);
      }
      assert forall i :: Stands(log, topic, user, i) || Stands(before, topic, user, i) ==> 0 <= i <= n;
      hide Stands, Since;
    }
  }
}

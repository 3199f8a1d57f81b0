/** The actor queries behind the actor list and the actor page: `get_all_actors`,
    `search_for_actor_or_role` and `get_actor_name`. */
module ActorQueries {
  import opened Wrappers
  import opened Schema
  import opened Sequences
  import opened Collation

  /** `ORDER BY actors.name`. */
  function NameOrder(): (Actor, Actor) -> bool {
    (a: Actor, b: Actor) => TextLe(a.name, b.name)
  }

  lemma NameOrderIsTotalPreorder()
    ensures TotalPreorder(NameOrder())
  {
    var le := NameOrder();
    forall a, b ensures le(a, b) || le(b, a) {
      TextLeTotal(a.name, b.name);
    }
    forall a, b, c | le(a, b) && le(b, c) ensures le(a, c) {
      TextLeTransitive(a.name, b.name, c.name);
    }
  }

  /** `get_all_actors`: every actor (id, name), ordered by name. */
  function AllActors(db: Db): (r: seq<Actor>)
    ensures SortedBy(NameOrder(), r)
    ensures multiset(r) == multiset(db.actors)
  {
    NameOrderIsTotalPreorder();
    SortBy(NameOrder(), db.actors)
  }

  /** Actor `a` has a cast row that matches the search: the row is `a`'s, and either `a`'s
      name or the character matches. */
  predicate RoleMatches(matches: TextMatch, query: string, a: Actor, cm: CastMember) {
    cm.actorId == a.id && (matches(query, a.name) || matches(query, cm.character))
  }

  /** The cast rows of `a` that match the search, in table order. */
  function Roles(matches: TextMatch, query: string, a: Actor, cast: seq<CastMember>): (r: seq<CastMember>)
    ensures forall cm :: cm in r <==> cm in cast && RoleMatches(matches, query, a, cm)
  {
    var p := (cm: CastMember) => RoleMatches(matches, query, a, cm);
    assert forall cm :: cm in Filter(p, cast) <==> cm in cast && p(cm) by {
      forall cm ensures cm in Filter(p, cast) <==> cm in cast && p(cm) {
        FilterMembers(p, cast, cm);
      }
    }
    Filter(p, cast)
  }

  /** `n` copies of one actor hold that actor `n` times and nobody else. */
  lemma {:induction false} CopiesCount(a: Actor, n: nat, b: Actor)
    ensures multiset(seq(n, _ => a))[b] == if b == a then n else 0
  {
    if n > 0 {
      CopiesCount(a, n - 1, b);
      assert seq(n, _ => a) == seq(n - 1, _ => a) + [a];
    }
  }

  /** `actors JOIN cast_members ON actors.id = cast_members.actor_id WHERE ...`, before the
      ORDER BY: one (id, name) row per matching (actor, cast row) pair. */
  function RoleHits(actors: seq<Actor>, cast: seq<CastMember>, matches: TextMatch, query: string): (r: seq<Actor>)
    ensures forall a :: a in r <==> a in actors && exists cm :: cm in cast && RoleMatches(matches, query, a, cm)
  {
    if actors == [] then []
    else
      var a := actors[0];
      var hits := Roles(matches, query, a, cast);
      var rest := RoleHits(actors[1..], cast, matches, query);
      var r := seq(|hits|, _ => a) + rest;
      assert forall b :: b in r <==> b in actors && exists cm :: cm in cast && RoleMatches(matches, query, b, cm) by {
        forall b ensures b in r <==> b in actors && exists cm :: cm in cast && RoleMatches(matches, query, b, cm) {
          if b == a && exists cm :: cm in cast && RoleMatches(matches, query, b, cm) {
            var cm :| cm in cast && RoleMatches(matches, query, b, cm);
            assert cm in hits;
            assert seq(|hits|, _ => a)[0] == b;
          }
          if b in r && b !in rest {
            assert hits[0] in hits;
          }
          if b in actors && b != a {
            assert b in actors[1..];
          }
        }
      }
      r
  }

  /** The join lists each actor once per matching cast row, and once more for every further
      copy of the actor in the table. */
  lemma {:induction false} RoleHitsCount(actors: seq<Actor>, cast: seq<CastMember>, matches: TextMatch, query: string, a: Actor)
    ensures multiset(RoleHits(actors, cast, matches, query))[a] == multiset(actors)[a] * |Roles(matches, query, a, cast)|
    decreases |actors|
  {
    if actors != [] {
      var b := actors[0];
      var n := |Roles(matches, query, a, cast)|;
      var copies := seq(|Roles(matches, query, b, cast)|, _ => b);
      var rest := RoleHits(actors[1..], cast, matches, query);
      assert RoleHits(actors, cast, matches, query) == copies + rest;
      RoleHitsCount(actors[1..], cast, matches, query, a);
      CopiesCount(b, |copies|, a);
      var head := if a == b then 1 else 0;
      var tail := multiset(actors[1..])[a];
      assert multiset(actors)[a] == head + tail by {
        assert actors == [b] + actors[1..];
      }
      assert multiset(copies)[a] == head * n;
      calc {
        multiset(copies + rest)[a];
        multiset(copies)[a] + multiset(rest)[a];
        head * n + tail * n;
        { Distribute(head, tail, n); }
        (head + tail) * n;
      }
    }
  }

  /** Multiplication distributes over addition. */
  lemma Distribute(x: int, y: int, n: int)
    ensures x * n + y * n == (x + y) * n
  {
  }

  /** `search_for_actor_or_role`: the actors with a cast row whose actor name or character
      matches the query, ordered by name; an actor appears once per matching role. */
  function SearchActors(db: Db, matches: TextMatch, query: string): (r: seq<Actor>)
    ensures SortedBy(NameOrder(), r)
    ensures forall a :: a in r <==> a in db.actors && exists cm :: cm in db.castMembers && RoleMatches(matches, query, a, cm)
    ensures forall a :: multiset(r)[a] == multiset(db.actors)[a] * |Roles(matches, query, a, db.castMembers)|
  {
    NameOrderIsTotalPreorder();
    var hits := RoleHits(db.actors, db.castMembers, matches, query);
    var r := SortBy(NameOrder(), hits);
    assert forall a :: multiset(r)[a] == multiset(db.actors)[a] * |Roles(matches, query, a, db.castMembers)| by {
      forall a ensures multiset(r)[a] == multiset(db.actors)[a] * |Roles(matches, query, a, db.castMembers)| {
        RoleHitsCount(db.actors, db.castMembers, matches, query, a);
      }
    }
    assert forall a :: a in r <==> a in hits by {
      forall a ensures a in r <==> a in hits {
        assert a in r <==> a in multiset(r);
        assert a in hits <==> a in multiset(hits);
      }
    }
    r
  }

  /** An actor id that is unique in `actors` occurs there once. */
  lemma {:induction false} UniqueIdOccursOnce(actors: seq<Actor>, a: Actor)
    requires forall i, j :: 0 <= i < |actors| && 0 <= j < |actors| && actors[i].id == actors[j].id ==> i == j
    requires a in actors
    ensures multiset(actors)[a] == 1
    decreases |actors|
  {
    assert actors == [actors[0]] + actors[1..];
    if actors[0] == a {
      assert a !in actors[1..] by {
        forall j | 0 <= j < |actors[1..]| ensures actors[1..][j] != a {
          assert actors[1..][j] == actors[j + 1];
        }
      }
    } else {
      UniqueIdOccursOnce(actors[1..], a);
    }
  }

  /** With `actors.id` a primary key, the search lists an actor exactly once per cast row of
      theirs that matches. */
  lemma SearchListsActorPerRole(db: Db, matches: TextMatch, query: string, a: Actor)
    requires UniqueActorIds(db) && a in db.actors
    ensures multiset(SearchActors(db, matches, query))[a] == |Roles(matches, query, a, db.castMembers)|
  {
    UniqueIdOccursOnce(db.actors, a);
  }

  /** `get_actor_name(actor_id)`: the name on the first row whose id is `actorId`; with no
      such row, `[0]` gives nil and `nil['name']` raises. */
  function ActorName(db: Db, actorId: int): (r: Result<string, DbError>)
    ensures r.Failure? <==> forall a :: a in db.actors ==> a.id != actorId
    ensures r.Failure? ==> r.error == NoSuchRow
    ensures r.Success? ==> exists k ::
      && 0 <= k < |db.actors| && db.actors[k].id == actorId && db.actors[k].name == r.value
      && forall j :: 0 <= j < k ==> db.actors[j].id != actorId
  {
    var p := (a: Actor) => a.id == actorId;
    var rows := Filter(p, db.actors);
    if rows == [] then
      assert forall a :: a in db.actors ==> a.id != actorId by {
        forall a | a in db.actors ensures a.id != actorId {
          FilterMembers(p, db.actors, a);
        }
      }
      Failure(NoSuchRow)
    else
      Success(rows[0].name)
  }

  /** With `actors.id` a primary key, the lookup returns the name of the actor with that id. */
  lemma ActorNameOfKnownActor(db: Db, a: Actor)
    requires UniqueActorIds(db) && a in db.actors
    ensures ActorName(db, a.id) == Success(a.name)
  {
  }
}

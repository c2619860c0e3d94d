/** The reaction-list logic shared by useMessageActions and useMessageReactions:
    add a (user, emoji) pair unless it is already there, remove every entry
    equal to the pair. A reaction is exactly its (user_id, emoji) pair. */
module Reactions {
  import opened Types
  import opened Seqs

  /** `findIndex(r => r.user_id === userId && r.emoji === emoji) !== -1` */
  predicate HasReaction(rs: seq<Reaction>, user: UserId, emoji: string)
  {
    Reaction(user, emoji) in rs
  }

  /** The invariant the data model states: no (user_id, emoji) pair twice. */
  predicate UniquePairs(rs: seq<Reaction>)
  {
    NoDup(rs)
  }

  /** The list `addReaction` writes back: unchanged when the pair is present,
      otherwise the pair pushed at the end. */
  function WithReaction(rs: seq<Reaction>, user: UserId, emoji: string): (r: seq<Reaction>)
    ensures HasReaction(r, user, emoji)
    ensures rs <= r && |r| <= |rs| + 1
    ensures forall i :: 0 <= i < |r| ==> r[i] in rs || r[i] == Reaction(user, emoji)
    ensures HasReaction(rs, user, emoji) <==> r == rs
  {
    if HasReaction(rs, user, emoji) then rs else rs + [Reaction(user, emoji)]
  }

  function IsNot(x: Reaction): Reaction -> bool
  {
    (r: Reaction) => r != x
  }

  /** The list `removeReaction` writes back: every entry equal to the pair
      filtered out, the rest in order. */
  function WithoutReaction(rs: seq<Reaction>, user: UserId, emoji: string): (r: seq<Reaction>)
    ensures !HasReaction(r, user, emoji)
    ensures forall i :: 0 <= i < |r| ==> r[i] in rs
    ensures forall i :: 0 <= i < |rs| && rs[i] != Reaction(user, emoji) ==> rs[i] in r
    ensures IsSublist(r, rs)
    ensures !HasReaction(rs, user, emoji) ==> r == rs
    ensures multiset(r) == multiset(rs)[Reaction(user, emoji) := 0]
  {
    FilterIsSublist(rs, IsNot(Reaction(user, emoji)));
    FilterMultiset(rs, IsNot(Reaction(user, emoji)));
    Filter(rs, IsNot(Reaction(user, emoji)))
  }

  /** Adding keeps the list free of duplicate pairs. */
  lemma AddKeepsUniquePairs(rs: seq<Reaction>, user: UserId, emoji: string)
    requires UniquePairs(rs)
    ensures UniquePairs(WithReaction(rs, user, emoji))
  {
    var r := WithReaction(rs, user, emoji);
    if !HasReaction(rs, user, emoji) {
      forall i, j | 0 <= i < j < |r| ensures r[i] != r[j] {
        if j == |rs| {
          assert r[i] == rs[i];
        }
      }
    }
  }

  /** Removing keeps the list free of duplicate pairs. */
  lemma RemoveKeepsUniquePairs(rs: seq<Reaction>, user: UserId, emoji: string)
    requires UniquePairs(rs)
    ensures UniquePairs(WithoutReaction(rs, user, emoji))
  {
    FilterNoDup(rs, IsNot(Reaction(user, emoji)));
  }

  /** Adding the same pair twice is adding it once. */
  lemma AddIdempotent(rs: seq<Reaction>, user: UserId, emoji: string)
    ensures WithReaction(WithReaction(rs, user, emoji), user, emoji) == WithReaction(rs, user, emoji)
  {
  }

  /** Removing a pair that was just added to a list without it restores the list. */
  lemma RemoveUndoesAdd(rs: seq<Reaction>, user: UserId, emoji: string)
    requires !HasReaction(rs, user, emoji)
    ensures WithoutReaction(WithReaction(rs, user, emoji), user, emoji) == rs
  {
    FilterAppend(rs, [Reaction(user, emoji)], IsNot(Reaction(user, emoji)));
  }

  /** After a removal, adding the pair back leaves exactly one copy of it. */
  lemma {:induction false} RemoveThenAddLeavesOneCopy(rs: seq<Reaction>, user: UserId, emoji: string)
    ensures Count(WithReaction(WithoutReaction(rs, user, emoji), user, emoji), Is(Reaction(user, emoji))) == 1
  {
    var x := Reaction(user, emoji);
    var w := WithoutReaction(rs, user, emoji);
    FilterAppend(w, [x], Is(x));
    NoneMatching(w, x);
  }

  function Is(x: Reaction): Reaction -> bool
  {
    (r: Reaction) => r == x
  }

  lemma NoneMatching(w: seq<Reaction>, x: Reaction)
    requires x !in w
    ensures Filter(w, Is(x)) == []
  {
  }
}

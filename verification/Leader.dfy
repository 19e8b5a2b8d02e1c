/** Round-robin leadership over a configured list of validator keys. The list indexes the
    validators; the rotation counts the participants, which are the same keys without
    duplicates. */
module Leader {
  import opened Types

  type PublicKey = nat

  function Participants(validators: seq<PublicKey>): set<PublicKey> {
    set k | k in validators
  }

  /** The first position of `key`. */
  function ValidatorIndex(validators: seq<PublicKey>, key: PublicKey): (index: Option<nat>)
    ensures index.None? <==> key !in validators
    ensures index.Some? ==> index.value < |validators| && validators[index.value] == key
                            && key !in validators[..index.value]
  {
    if validators == [] then None
    else if validators[0] == key then Some(0)
    else match ValidatorIndex(validators[1..], key)
      case None => None
      case Some(i) =>
        assert validators[..i + 1] == [validators[0]] + validators[1..][..i];
        Some(i + 1)
  }

  function LeaderIndex(height: nat, validatorCount: nat): nat
    requires validatorCount > 0
  {
    height % validatorCount
  }

  predicate IsLeader(ourIndex: nat, height: nat, validatorCount: nat)
    requires validatorCount > 0
  {
    LeaderIndex(height, validatorCount) == ourIndex
  }

  lemma {:induction false} ParticipantsAreNoMore(validators: seq<PublicKey>)
    ensures |Participants(validators)| <= |validators|
    ensures validators != [] ==> |Participants(validators)| > 0
  {
    if validators != [] {
      var rest := validators[..|validators| - 1];
      ParticipantsAreNoMore(rest);
      assert Participants(validators) == Participants(rest) + {validators[|validators| - 1]};
    }
  }

  lemma {:induction false} DistinctAreAllCounted(validators: seq<PublicKey>)
    requires Distinct(validators)
    ensures |Participants(validators)| == |validators|
  {
    if validators != [] {
      var rest := validators[..|validators| - 1];
      DistinctAreAllCounted(rest);
      assert Participants(validators) == Participants(rest) + {validators[|validators| - 1]};
    }
  }

  /** `key`, running with this list, considers itself the leader at `height`. */
  predicate Leads(validators: seq<PublicKey>, key: PublicKey, height: nat)
    requires validators != []
  {
    ParticipantsAreNoMore(validators);
    var index := ValidatorIndex(validators, key);
    index.Some? && IsLeader(index.value, height, |Participants(validators)|)
  }

  ghost predicate HasLeader(validators: seq<PublicKey>, height: nat)
    requires validators != []
  {
    exists k :: Leads(validators, k, height)
  }

  lemma {:induction false} LeaderIsFirst(validators: seq<PublicKey>, key: PublicKey, j: nat)
    requires validators != [] && j < |Participants(validators)| && Leads(validators, key, j)
    ensures j < |validators| && validators[j] == key && key !in validators[..j]
  {
    SmallMod(j, |Participants(validators)|);
  }

  lemma FirstLeads(validators: seq<PublicKey>, h: nat)
    requires validators != []
    requires |Participants(validators)| <= |validators| && Distinct(validators[..|Participants(validators)|])
    ensures HasLeader(validators, h)
  {
    ParticipantsAreNoMore(validators);
    var n := |Participants(validators)|;
    var i := h % n;
    var first := ValidatorIndex(validators, validators[i]).value;
    assert i >= first;
    assert validators[..n][i] == validators[i];
    assert Leads(validators, validators[i], h);
  }

  lemma SmallMod(j: nat, n: nat)
    requires j < n
    ensures j % n == j
  {
  }

  /** No height has two leaders, whatever the list. Every height has one exactly when the
      list starts with as many different keys as it has altogether: a duplicate among them
      leaves every `count`-th height without a leader, and its block without a submitter. */
  lemma LeadersPerHeight(validators: seq<PublicKey>)
    requires validators != []
    ensures forall h: nat, a, b :: Leads(validators, a, h) && Leads(validators, b, h) ==> a == b
    ensures |Participants(validators)| <= |validators|
    ensures (forall h: nat :: HasLeader(validators, h)) <==>
            Distinct(validators[..|Participants(validators)|])
  {
    ParticipantsAreNoMore(validators);
    var n := |Participants(validators)|;
    if forall h: nat :: HasLeader(validators, h) {
      forall i, j | 0 <= i < j < n
        ensures validators[..n][i] != validators[..n][j]
      {
        assert HasLeader(validators, j);
        var k :| Leads(validators, k, j);
        LeaderIsFirst(validators, k, j);
        assert validators[..j][i] == validators[i];
      }
    }
    if Distinct(validators[..n]) {
      forall h: nat
        ensures HasLeader(validators, h)
      {
        FirstLeads(validators, h);
      }
    }
  }

  /** With distinct keys, the leader of a height is the validator at that height modulo their
      number. */
  lemma LeaderOfHeight(validators: seq<PublicKey>, key: PublicKey, h: nat)
    requires validators != [] && Distinct(validators)
    ensures Leads(validators, key, h) <==> validators[h % |validators|] == key
  {
    DistinctAreAllCounted(validators);
    var i := h % |validators|;
    var first := ValidatorIndex(validators, validators[i]).value;
    assert validators[first] == validators[i];
  }

  /** With distinct keys, each validator leads exactly once in any `n` consecutive heights. */
  lemma OneTurnPerRotation(validators: seq<PublicKey>, key: PublicKey, start: nat)
    requires validators != [] && Distinct(validators) && key in validators
    ensures exists h: nat :: start <= h < start + |validators| && Leads(validators, key, h)
              && forall g: nat :: start <= g < start + |validators| && Leads(validators, key, g) ==> g == h
  {
    DistinctAreAllCounted(validators);
    var n := |validators|;
    var i := ValidatorIndex(validators, key).value;
    var turn := if start % n <= i then start - start % n + i else start - start % n + n + i;
    ModOfShift(start, i, n, turn);
    assert Leads(validators, key, turn);
    forall g: nat | start <= g < start + n && Leads(validators, key, g)
      ensures g == turn
    {
      SameResidueNearby(g, turn, n);
    }
  }

  lemma {:induction false} ModOfShift(start: nat, i: nat, n: nat, turn: nat)
    requires i < n
    requires turn == start - start % n + i || turn == start - start % n + n + i
    ensures turn % n == i
  {
    var q := start / n;
    assert start == q * n + start % n;
    assert (q + 1) * n == q * n + n;
    if turn == q * n + i {
      SameQuotient(q, turn / n, n, i, turn % n);
    } else {
      SameQuotient(q + 1, turn / n, n, i, turn % n);
    }
  }

  lemma {:induction false} SameResidueNearby(a: nat, b: nat, n: nat)
    requires n > 0 && a % n == b % n && a < b + n && b < a + n
    ensures a == b
  {
    var p, q := a / n, b / n;
    assert a == p * n + a % n && b == q * n + b % n;
    if p > q {
      AtLeastOnce(p - q, n);
    } else if p < q {
      AtLeastOnce(q - p, n);
    }
  }

  lemma {:induction false} SameQuotient(p: nat, q: nat, n: nat, r: nat, s: nat)
    requires p * n + r == q * n + s && r < n && s < n
    ensures p == q && r == s
  {
    if p > q {
      AtLeastOnce(p - q, n);
    } else if p < q {
      AtLeastOnce(q - p, n);
    }
  }

  lemma AtLeastOnce(k: nat, n: nat)
    requires k > 0
    ensures k * n >= n
  {
    assert k * n == (k - 1) * n + n;
  }
}

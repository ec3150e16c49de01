/**
 How the data queues are split over the replicas of Data Updater Plant: every replica gets a
 range of queue numbers, computed from its own index and from the replica count of the
 reconcile that wrote its Deployment.
 */
module Queues {

  /** A closed range of queue numbers; empty when its end lies before its start. */
  datatype Range = Range(start: int, end: int) {
    predicate Holds(queue: int) {
      start <= queue <= end
    }

    predicate Empty() {
      end < start
    }
  }

  /** Go's integer division for a positive divisor: it truncates toward zero. */
  function Quotient(a: int, b: int): int
    requires b > 0
  {
    if a >= 0 then a / b else -((-a) / b)
  }

  /** The range a replica is told to consume, by index and replica count. */
  function Share(queues: int, index: int, replicas: int): Range {
    if replicas <= 1 then
      Range(0, queues - 1)
    else
      var part := Quotient(queues, replicas);
      Range(part * index, if index == replicas - 1 then queues - 1 else part * (index + 1) - 1)
  }

  /** The replica that consumes a queue, stated without ranges. */
  function Owner(queues: int, replicas: int, queue: int): int
    requires replicas >= 1 && 0 <= queue < queues
  {
    if queues < replicas then
      replicas - 1
    else
      DivPositive(queues, replicas);
      var owner := queue / (queues / replicas);
      if owner < replicas then owner else replicas - 1
  }

  method GetDataUpdaterPlantQueueRange(replicaIndex: int, replicas: int, dataQueueCount: int) returns (range: Range)
    ensures range == Share(dataQueueCount, replicaIndex, replicas)
    ensures replicas >= 1 && 0 <= replicaIndex < replicas ==>
              forall queue :: range.Holds(queue) <==>
                0 <= queue < dataQueueCount && Owner(dataQueueCount, replicas, queue) == replicaIndex
  {
    var rangeStart := 0;
    var rangeEnd := dataQueueCount - 1;
    if replicas > 1 {
      var dataQueuePartition := Quotient(dataQueueCount, replicas);
      rangeStart := dataQueuePartition * replicaIndex;
      if replicas != replicaIndex + 1 {
        rangeEnd := dataQueuePartition * (replicaIndex + 1) - 1;
      }
    }
    range := Range(rangeStart, rangeEnd);
    if replicas >= 1 && 0 <= replicaIndex < replicas {
      forall queue
        ensures range.Holds(queue) <==>
                  0 <= queue < dataQueueCount && Owner(dataQueueCount, replicas, queue) == replicaIndex
      {
        SharesPartitionTheQueues(dataQueueCount, replicas, replicaIndex, queue);
      }
    }
  }

  lemma DivPositive(a: int, b: int)
    requires 1 <= b <= a
    ensures a / b >= 1
  {
    Division(a, b);
  }

  /** The defining equation of division by a positive number. */
  lemma Division(a: int, b: int)
    requires b > 0
    ensures a == b * (a / b) + a % b && 0 <= a % b < b
  {
  }

  /** Multiplying both sides of an inequality by something that is not negative. */
  lemma ScaleUp(a: int, b: int, c: int)
    requires a <= b && 0 <= c
    ensures a * c <= b * c && c * a <= c * b
  {
  }

  lemma QuotientBounds(queues: int, replicas: int)
    requires replicas >= 1
    ensures var part := Quotient(queues, replicas);
            if queues >= 0 then 0 <= replicas * part <= queues < replicas * part + replicas && 0 <= part
            else queues <= replicas * part <= 0 && part <= 0
  {
    if queues >= 0 {
      Division(queues, replicas);
      if queues / replicas < 0 { ScaleUp(queues / replicas, -1, replicas); }
    } else {
      NegatedQuotient(-queues, replicas, (-queues) / replicas);
    }
  }

  lemma NegatedQuotient(m: int, b: int, quotient: int)
    requires m >= 0 && b >= 1 && quotient == m / b
    ensures -m <= b * -quotient <= 0 && 0 <= quotient
  {
    Division(m, b);
    if quotient < 0 { ScaleUp(quotient, -1, b); }
    ScaleUp(0, quotient, b);
    assert b * -quotient == -(b * quotient);
  }

  /** For any queue count, even a negative one, no range reaches outside the existing queues. */
  lemma SharesHoldOnlyRealQueues(queues: int, replicas: int, index: int, queue: int)
    requires replicas >= 1 && 0 <= index < replicas
    requires Share(queues, index, replicas).Holds(queue)
    ensures 0 <= queue < queues
  {
    if replicas > 1 {
      QuotientBounds(queues, replicas);
      RangeInside(queues, replicas, Quotient(queues, replicas), index, queue);
    }
  }

  lemma RangeInside(queues: int, replicas: int, part: int, index: int, queue: int)
    requires 0 <= index < replicas
    requires if queues >= 0 then 0 <= replicas * part <= queues && 0 <= part else queues <= replicas * part && part <= 0
    requires part * index <= queue <= if index == replicas - 1 then queues - 1 else part * (index + 1) - 1
    ensures 0 <= queue < queues
  {
    Distribute(part, index);
    if part >= 0 {
      ScaleUp(0, part, index);
      ScaleUp(index + 1, replicas, part);
    }
  }

  lemma Distribute(a: int, b: int)
    ensures a * (b + 1) == a * b + a
  {
  }

  /** A queue lies in a replica's range exactly when the replica is its owner. */
  lemma SharesPartitionTheQueues(queues: int, replicas: int, index: int, queue: int)
    requires replicas >= 1 && 0 <= index < replicas
    ensures Share(queues, index, replicas).Holds(queue) <==>
            0 <= queue < queues && Owner(queues, replicas, queue) == index
  {
    hide Share, Owner;
    if Share(queues, index, replicas).Holds(queue) {
      SharesHoldOnlyRealQueues(queues, replicas, index, queue);
    }
    if 0 <= queue < queues {
      if replicas == 1 {
        OnlyReplicaOwnsAll(queues, queue);
      } else if queues < replicas {
        LastReplicaOwnsAll(queues, replicas, index, queue);
      } else {
        OwnerByRange(queues, replicas, index, queue);
      }
    }
  }

  lemma OnlyReplicaOwnsAll(queues: int, queue: int)
    requires 0 <= queue < queues
    ensures Share(queues, 0, 1).Holds(queue) && Owner(queues, 1, queue) == 0
  {
    DivPositive(queues, 1);
    assert queues / 1 == queues;
    SmallQuotient(queue, queues);
  }

  lemma SmallQuotient(a: int, b: int)
    requires 0 <= a < b
    ensures a / b == 0
  {
  }

  /** With fewer queues than replicas the quotient is 0, and the last replica takes them all. */
  lemma LastReplicaOwnsAll(queues: int, replicas: int, index: int, queue: int)
    requires 2 <= replicas && 0 <= index < replicas && 0 <= queue < queues < replicas
    ensures Share(queues, index, replicas).Holds(queue) <==> Owner(queues, replicas, queue) == index
  {
    SmallQuotient(queues, replicas);
  }

  lemma OwnerByRange(queues: int, replicas: int, index: int, queue: int)
    requires replicas >= 2 && 0 <= index < replicas <= queues && 0 <= queue < queues
    ensures Share(queues, index, replicas).Holds(queue) <==> Owner(queues, replicas, queue) == index
  {
    DivPositive(queues, replicas);
    var part := queues / replicas;
    var slot := queue / part;
    assert queue == part * slot + queue % part;
    assert slot >= 0 by {
      if slot < 0 { ScaleUp(slot, -1, part); }
    }
    if slot < index {
      ScaleUp(slot + 1, index, part);
      Distribute(part, slot);
    } else if slot > index {
      ScaleUp(index + 1, slot, part);
    } else {
      Distribute(part, index);
    }
  }

  /** Every replica but the last gets the quotient, the last one gets the remainder on top. */
  lemma ShareSizes(queues: nat, replicas: int, index: int)
    requires replicas >= 1 && 0 <= index < replicas
    ensures var share := Share(queues, index, replicas);
            share.end - share.start + 1 ==
            if index == replicas - 1 then queues / replicas + queues % replicas else queues / replicas
  {
    var part := queues / replicas;
    assert queues == replicas * part + queues % replicas;
    if replicas == 1 {
      assert queues / 1 == queues;
    } else {
      Distribute(part, index);
    }
  }

  /** The numbers that ranges are computed from. */
  datatype Layout = Layout(queues: int, replicas: int) {
    function ShareOf(index: int): Range {
      Share(queues, index, replicas)
    }

    function Part(): int
      requires replicas >= 1
    {
      Quotient(queues, replicas)
    }
  }

  /** Some replica with its range for the layout `target`, before position `index`, shares a queue
      with the replica at `index` that still carries its range for the layout `stale`. */
  ghost predicate Collides(target: Layout, stale: Layout, index: int) {
    exists other, queue ::
      && 0 <= other < index
      && target.ShareOf(other).Holds(queue)
      && stale.ShareOf(index).Holds(queue)
  }

  /** The test a caller can make before rolling out `target` over a replica written for `stale`. */
  predicate Compatible(target: Layout, stale: Layout, index: int)
    requires target.replicas >= 1 && stale.replicas >= 1
  {
    target.Part() <= stale.Part() || stale.ShareOf(index).Empty()
  }

  /** New ranges in front of an old one overlap it exactly when the new quotient is the larger one
      and the old range is not empty, whether or not the queue count has changed as well. */
  lemma MixedRangesCollideExactlyWhen(target: Layout, stale: Layout, index: int)
    requires 1 <= index < target.replicas && index < stale.replicas
    ensures Collides(target, stale, index) <==> !Compatible(target, stale, index)
  {
    if Collides(target, stale, index) {
      var other, queue :|
        && 0 <= other < index
        && target.ShareOf(other).Holds(queue)
        && stale.ShareOf(index).Holds(queue);
      if target.Part() <= stale.Part() {
        SmallerQuotientEndsBefore(target, stale, index, other, queue);
      }
    }
    if !Compatible(target, stale, index) {
      LargerQuotientCollides(target, stale, index);
    }
  }

  lemma SmallerQuotientEndsBefore(target: Layout, stale: Layout, index: int, other: int, queue: int)
    requires 0 <= other < index < target.replicas && index < stale.replicas
    requires target.Part() <= stale.Part()
    requires stale.ShareOf(index).Holds(queue)
    ensures !target.ShareOf(other).Holds(queue)
  {
    SharesHoldOnlyRealQueues(stale.queues, stale.replicas, index, queue);
    if target.ShareOf(other).Holds(queue) {
      SharesHoldOnlyRealQueues(target.queues, target.replicas, other, queue);
      QuotientBounds(target.queues, target.replicas);
      ScaleUp(target.Part(), stale.Part(), index);
      ScaleUp(other + 1, index, target.Part());
    }
  }

  lemma LargerQuotientCollides(target: Layout, stale: Layout, index: int)
    requires 1 <= index < target.replicas && index < stale.replicas
    requires !Compatible(target, stale, index)
    ensures Collides(target, stale, index)
  {
    var newPart, oldPart := target.Part(), stale.Part();
    var queue := oldPart * index;
    assert stale.ShareOf(index).Holds(queue);
    SharesHoldOnlyRealQueues(stale.queues, stale.replicas, index, queue);
    QuotientBounds(stale.queues, stale.replicas);
    var other := SlotOf(newPart, oldPart, index, queue);
    assert target.ShareOf(other).Holds(queue);
  }

  /** The slot of size `newPart` that contains `oldPart * index`. */
  lemma SlotOf(newPart: int, oldPart: int, index: int, queue: int) returns (other: int)
    requires 0 <= oldPart < newPart && 1 <= index && queue == oldPart * index
    ensures 0 <= other < index && newPart * other <= queue <= newPart * (other + 1) - 1
  {
    other := queue / newPart;
    Division(queue, newPart);
    ScaleUp(oldPart, newPart - 1, index);
    ScaleUp(0, oldPart, index);
    assert (newPart - 1) * index == newPart * index - index;
    if other >= index { ScaleUp(index, other, newPart); }
    if other < 0 { ScaleUp(other, -1, newPart); }
    Distribute(newPart, other);
  }

  /** More replicas never mean a larger quotient, so growing is always compatible. */
  lemma GrowingIsCompatible(queues: int, target: int, stale: int, index: int)
    requires 1 <= stale <= target && 0 <= index < stale
    ensures Compatible(Layout(queues, target), Layout(queues, stale), index)
  {
    QuotientBounds(queues, target);
    QuotientBounds(queues, stale);
    var share := Share(queues, index, stale);
    if share.Holds(share.start) {
      SharesHoldOnlyRealQueues(queues, stale, index, share.start);
      SmallerDivisorLargerQuotient(queues, target, stale, Quotient(queues, target), Quotient(queues, stale));
    }
  }

  lemma SmallerDivisorLargerQuotient(a: int, large: int, small: int, p: int, q: int)
    requires 1 <= small <= large && 0 <= p
    requires large * p <= a < small * q + small
    ensures p <= q
  {
    if p > q {
      ScaleUp(small, large, p);
      ScaleUp(q + 1, p, small);
      Distribute(small, q);
    }
  }
}

/** The verification queue: news items awaiting review, approved or rejected one id at a time;
    only the items still pending are shown as cards. */
module VerificationCards {

  import opened Wrappers
  import Lists

  /** A queued item. `status` is optional in the record type, so it may be absent. */
  datatype CardItem = CardItem(id: int, title: string, category: string, date: string, time: string,
                               preview: string, sources: seq<string>, content: string, status: Option<string>)

  predicate IsPending(item: CardItem) {
    item.status == Some("pending")
  }

  /** The update `handleApprove` and `handleReject` apply: the items with the id get `status`;
      every other item is kept as it is. */
  function SetStatusById(data: seq<CardItem>, newsId: int, status: string): (r: seq<CardItem>)
    ensures |r| == |data|
    ensures forall i :: 0 <= i < |data| && data[i].id == newsId ==> r[i] == data[i].(status := Some(status))
    ensures forall i :: 0 <= i < |data| && data[i].id != newsId ==> r[i] == data[i]
  {
    Lists.UpdateWhere(data, (item: CardItem) => item.id == newsId, (item: CardItem) => item.(status := Some(status)))
  }

  /** `pendingItems`: the pending items, in their original order. */
  function PendingItems(data: seq<CardItem>): (r: seq<CardItem>)
    ensures Lists.IsSubsequence(r, data)
    ensures forall i :: 0 <= i < |r| ==> IsPending(r[i])
    ensures forall i :: 0 <= i < |data| && IsPending(data[i]) ==> data[i] in r
    ensures multiset(r) <= multiset(data)
    ensures forall i :: 0 <= i < |data| && IsPending(data[i]) ==> multiset(r)[data[i]] == multiset(data)[data[i]]
  {
    Lists.FilterSubMultiset(data, IsPending);
    Lists.FilterKeepsCounts(data, IsPending);
    Lists.Filter(data, IsPending)
  }

  /** Approving or rejecting an id takes exactly the items with that id out of the pending view:
      what remains is the pending items with other ids, in order. */
  lemma {:induction false} ProcessedLeavesQueue(data: seq<CardItem>, newsId: int, status: string)
    requires status != "pending"
    ensures PendingItems(SetStatusById(data, newsId, status)) == Lists.Filter(data, OtherPending(newsId))
    ensures forall i :: 0 <= i < |PendingItems(SetStatusById(data, newsId, status))| ==>
      PendingItems(SetStatusById(data, newsId, status))[i].id != newsId
  {
    if data != [] {
      ProcessedLeavesQueue(data[1..], newsId, status);
      assert SetStatusById(data, newsId, status)[1..] == SetStatusById(data[1..], newsId, status);
      assert SetStatusById(data, newsId, status) == [SetStatusById(data, newsId, status)[0]] + SetStatusById(data[1..], newsId, status);
    }
    var r := Lists.Filter(data, OtherPending(newsId));
    assert forall i :: 0 <= i < |r| ==> OtherPending(newsId)(r[i]);
  }

  /** The pending items whose id is not `newsId`. */
  function OtherPending(newsId: int): CardItem -> bool {
    (item: CardItem) => IsPending(item) && item.id != newsId
  }

  /** The "No items pending verification" message shows exactly when no item is pending. */
  predicate ShowEmptyMessage(data: seq<CardItem>) {
    |PendingItems(data)| == 0
  }

  lemma EmptyMessageIff(data: seq<CardItem>)
    ensures ShowEmptyMessage(data) <==> forall i :: 0 <= i < |data| ==> !IsPending(data[i])
  {
    Lists.FilterEmpty(data, IsPending);
  }

  function ApprovedToast(title: string): string {
    "\"" + title + "\" has been approved successfully!"
  }

  function RejectedToast(title: string): string {
    "\"" + title + "\" has been rejected."
  }

  /** The verification cards component and its queue. */
  class Queue {
    var newsData: seq<CardItem>

    constructor (initial: seq<CardItem>)
      ensures newsData == initial
    {
      newsData := initial;
    }

    function Pending(): seq<CardItem>
      reads this
    {
      PendingItems(newsData)
    }

    /** `handleApprove(newsId, notes)`: the reviewer's notes are accepted and not stored. */
    method HandleApprove(newsId: int, notes: string) returns (toast: Option<string>)
      modifies this
      ensures newsData == SetStatusById(old(newsData), newsId, "approved")
      ensures toast.None? <==> forall i :: 0 <= i < |old(newsData)| ==> old(newsData)[i].id != newsId
      ensures toast.Some? ==> exists i :: 0 <= i < |old(newsData)| && old(newsData)[i].id == newsId
                                          && (forall j :: 0 <= j < i ==> old(newsData)[j].id != newsId)
                                          && toast.value == ApprovedToast(old(newsData)[i].title)
    {
      var item := Lists.Find(newsData, (item: CardItem) => item.id == newsId);
      newsData := SetStatusById(newsData, newsId, "approved");
      toast := if item.Some? then Some(ApprovedToast(item.value.title)) else None;
    }

    /** `handleReject(newsId, notes)`: the reviewer's notes are accepted and not stored. */
    method HandleReject(newsId: int, notes: string) returns (toast: Option<string>)
      modifies this
      ensures newsData == SetStatusById(old(newsData), newsId, "rejected")
      ensures toast.None? <==> forall i :: 0 <= i < |old(newsData)| ==> old(newsData)[i].id != newsId
      ensures toast.Some? ==> exists i :: 0 <= i < |old(newsData)| && old(newsData)[i].id == newsId
                                          && (forall j :: 0 <= j < i ==> old(newsData)[j].id != newsId)
                                          && toast.value == RejectedToast(old(newsData)[i].title)
    {
      var item := Lists.Find(newsData, (item: CardItem) => item.id == newsId);
      newsData := SetStatusById(newsData, newsId, "rejected");
      toast := if item.Some? then Some(RejectedToast(item.value.title)) else None;
    }
  }
}

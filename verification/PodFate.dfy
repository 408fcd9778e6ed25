/** How one answer of the pod getter is judged while waiting for a pod to go away. */
module PodFate {
  import opened Kube

  /** The getter hands back a pod pointer and an error; both may be set at once. */
  datatype RawReply = RawReply(obj: Option<Pod>, err: ApiError)

  /** Dereferencing a nil pod without an error would panic, so a client never answers that. */
  type GetReply = r: RawReply | r.obj.Some? || r.err != NoError witness RawReply(None, NotFound)

  datatype Fate = Gone | Skipped | Pending | Broken(err: ApiError)

  /** `now` and the deletion timestamp count whole seconds. */
  predicate ShouldSkipPod(pod: Pod, skipAfter: int, now: int) {
    skipAfter > 0 && pod.deletionTimestamp.Some? && now - pod.deletionTimestamp.value > skipAfter
  }

  predicate LooksGone(pod: Pod, reply: GetReply) {
    reply.err == NotFound || (reply.obj.Some? && reply.obj.value.uid != pod.uid)
  }

  function Judge(pod: Pod, reply: GetReply, skipAfter: int, now: int): Fate {
    if LooksGone(pod, reply) then Gone
    else if reply.err != NoError then Broken(reply.err)
    else if ShouldSkipPod(reply.obj.value, skipAfter, now) then Skipped
    else Pending
  }

  /** The call failed, without saying that the pod is missing, and came with another object. */
  predicate Misjudged(pod: Pod, reply: GetReply) {
    reply.err != NoError && reply.err != NotFound && reply.obj.Some? && reply.obj.value.uid != pod.uid
  }

  /** The gone test runs before the error check: a failed call is taken for a deletion exactly when
      it comes with an object of another identity, as a client that returns an empty object does. */
  lemma FailedCallJudgedGone(pod: Pod, reply: GetReply, skipAfter: int, now: int)
    requires reply.err != NoError && reply.err != NotFound
    ensures Judge(pod, reply, skipAfter, now) == if Misjudged(pod, reply) then Gone else Broken(reply.err)
  {}

  /** The skip test on its own fields. */
  predicate LongDeleted(pod: Pod, skipAfter: int, now: int) {
    && skipAfter > 0
    && match pod.deletionTimestamp
       case None => false
       case Some(t) => now > t + skipAfter
  }

  /** What each judgement says of the answer. */
  lemma JudgeMeans(pod: Pod, reply: GetReply, skipAfter: int, now: int)
    ensures var fate := Judge(pod, reply, skipAfter, now);
            var replaced := reply.obj.Some? && reply.obj.value.uid != pod.uid;
            && (fate == Gone <==> reply.err == NotFound || replaced)
            && (fate.Broken? <==> reply.err != NotFound && reply.err != NoError && !replaced)
            && (fate.Broken? ==> fate.err == reply.err)
            && (fate == Skipped <==> reply.err == NoError && !replaced && LongDeleted(reply.obj.value, skipAfter, now))
            && (fate == Pending <==> reply.err == NoError && !replaced && !LongDeleted(reply.obj.value, skipAfter, now))
  {}

  /** Without a skip time no answer is judged skippable. */
  lemma NeverSkippedByDefault(pod: Pod, reply: GetReply, skipAfter: int, now: int)
    requires skipAfter <= 0
    ensures Judge(pod, reply, skipAfter, now) != Skipped
  {}

  const DELETED_AT_100 := Pod("default", "web", "1", [], map[], map[], Some(100), None, [], PodRunning, [], [])

  /** Ten seconds after its deletion the pod is pending by default and at a skip time of ten, and
      skippable a second later. */
  lemma SkipExamples()
    ensures var reply := RawReply(Some(DELETED_AT_100), NoError);
            && Judge(DELETED_AT_100, reply, 0, 110) == Pending
            && Judge(DELETED_AT_100, reply, 10, 110) == Pending
            && Judge(DELETED_AT_100, reply, 10, 111) == Skipped
            && Judge(DELETED_AT_100.(uid := "2"), reply, 0, 110) == Gone
            && Judge(DELETED_AT_100, RawReply(None, NotFound), 0, 110) == Gone
            && Judge(DELETED_AT_100, RawReply(None, TooManyRequests), 0, 110) == Broken(TooManyRequests)
  {}
}

/**
 Following the newest output or staying where the reader scrolled to
 (frontend/terminal-ui/src/timeline-follow.js).
 */
module TimelineFollows {
  import opened Wrappers

  class FollowState {
    var followTail: bool
    var scrollOffset: nat
    var unreadOutputCount: nat
    var unreadOutputKeys: set<string>

    /** Following means offset 0 and nothing unread; the count is that of the distinct keys. */
    ghost predicate Valid()
      reads this
    {
      && (followTail <==> scrollOffset == 0)
      && unreadOutputCount == |unreadOutputKeys|
      && (followTail ==> unreadOutputKeys == {})
    }

    constructor ()
      ensures Valid() && followTail
    {
      followTail, scrollOffset, unreadOutputCount, unreadOutputKeys := true, 0, 0, {};
    }

    method JumpTimelineToLatest()
      modifies this
      ensures Valid() && followTail
    {
      followTail, scrollOffset, unreadOutputCount, unreadOutputKeys := true, 0, 0, {};
    }

    method DetachTimeline(offset: int)
      requires Valid()
      modifies this
      ensures Valid() && scrollOffset == (if offset < 1 then 1 else offset)
      ensures unchanged(`unreadOutputKeys)
    {
      followTail := false;
      scrollOffset := if offset < 1 then 1 else offset;
    }

    method ScrollTimeline(delta: int)
      requires Valid()
      modifies this
      ensures Valid() && scrollOffset == (if old(scrollOffset) + delta < 0 then 0 else old(scrollOffset) + delta)
      ensures unreadOutputKeys == if scrollOffset == 0 then {} else old(unreadOutputKeys)
    {
      var next := if scrollOffset + delta < 0 then 0 else scrollOffset + delta;
      if next == 0 {
        JumpTimelineToLatest();
      } else {
        DetachTimeline(next);
      }
    }

    /** Output with a key: unread once while detached, shown at once while following. */
    method MarkTimelineOutput(key: Option<string>) returns (marked: bool)
      requires Valid()
      modifies this
      ensures Valid() && scrollOffset == old(scrollOffset)
      ensures marked <==> key.Some? && key.value != ""
      ensures unreadOutputKeys == if marked && !followTail then old(unreadOutputKeys) + {key.value} else old(unreadOutputKeys)
    {
      if key.None? || key.value == "" { return false; }
      if followTail {
        JumpTimelineToLatest();
        return true;
      }
      if key.value !in unreadOutputKeys {
        unreadOutputKeys := unreadOutputKeys + {key.value};
        unreadOutputCount := unreadOutputCount + 1;
      }
      return true;
    }
  }
}

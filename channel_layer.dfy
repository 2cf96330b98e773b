/** The channel layer the websocket consumers and the notification task talk to: named groups
    of connections and the log of every message sent to a group. A logged push records the
    members the group had when it was sent, which are the connections that receive it. */
module ChannelLayer {
  import opened Common
  import opened RealTimeModels

  /** The payload of a `group_send`: a chat message for a thread group, or the notification
      data for a user's notification group (`message` is present only for chat notices). */
  datatype Payload =
    | ChatMessage(chat: Chat)
    | NotificationData(kind: string, sender: Option<string>, message: Option<string>,
                       text: string, link: string)

  datatype Push = Push(group: string, recipients: set<string>, payload: Payload)

  /** One observable step of a handler, in the order it happens: a row written or a message
      pushed to a group. */
  datatype Effect = SavedChat(chat: Chat) | SavedNotification(row: Notification) | Pushed(push: Push)

  /** The group a user's notification socket joins and the views push to: `notification_{id}`. */
  function NotificationGroup(userId: nat): string
  {
    "notification_" + NatToString(userId)
  }

  /** Different users have different notification groups, so a push reaches one user only. */
  lemma NotificationGroupInjective(a: nat, b: nat)
    requires NotificationGroup(a) == NotificationGroup(b)
    ensures a == b
  {
    assert NatToString(a) == NotificationGroup(a)[13..];
    assert NatToString(b) == NotificationGroup(b)[13..];
    NatToStringInjective(a, b);
  }

  function Members(groups: map<string, set<string>>, group: string): (m: set<string>)
    ensures group !in groups ==> m == {}
  {
    if group in groups then groups[group] else {}
  }

  class Layer {
    var groups: map<string, set<string>>
    var log: seq<Push>

    constructor ()
      ensures groups == map[] && log == []
    {
      groups, log := map[], [];
    }

    /** `group_add`: the connection joins the group; no other group changes. */
    method GroupAdd(group: string, channel: string)
      modifies this`groups
      ensures groups == old(groups)[group := Members(old(groups), group) + {channel}]
      ensures channel in Members(groups, group)
    {
      groups := groups[group := Members(groups, group) + {channel}];
    }

    /** `group_discard`: the connection leaves the group; no other group changes. */
    method GroupDiscard(group: string, channel: string)
      modifies this`groups
      ensures groups == old(groups)[group := Members(old(groups), group) - {channel}]
      ensures channel !in Members(groups, group)
    {
      groups := groups[group := Members(groups, group) - {channel}];
    }

    /** `group_send`: the payload reaches the current members of the group. */
    method GroupSend(group: string, payload: Payload)
      modifies this`log
      ensures log == old(log) + [Push(group, Members(groups, group), payload)]
    {
      log := log + [Push(group, Members(groups, group), payload)];
    }
  }

  /** Joining and then leaving a group restores it when the connection was not a member. */
  lemma AddThenDiscard(groups: map<string, set<string>>, group: string, channel: string)
    requires channel !in Members(groups, group)
    ensures var g1 := groups[group := Members(groups, group) + {channel}];
            Members(g1[group := Members(g1, group) - {channel}], group) == Members(groups, group)
  {
  }
}

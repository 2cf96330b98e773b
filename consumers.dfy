/** The websocket consumers of real_time/consumers.py. A chat consumer joins the group named
    by its thread when it connects and leaves it when it disconnects; each message it
    receives between two known users is saved, broadcast to the thread, announced to the
    receiver's notification group, and only then recorded as a notification row. A
    notification consumer joins and leaves its user's notification group. */
module Consumers {
  import opened Common
  import opened UsersModels
  import opened RealTimeModels
  import opened Store
  import opened ChannelLayer

  /** The notification row `create_notification` writes for a chat message. */
  function ChatNotice(id: nat, sender: nat, receiver: nat, senderName: Option<string>, room: string)
    : (n: Notification)
    ensures n.id == id && n.sender == Some(sender) && n.receiver == Some(receiver) && !n.seen
    ensures n.kind == Some("new_message") && n.link == Some("/chat/" + room)
    ensures n.text == Some("New message from " + OptionText(senderName))
  {
    NewNotification(id, Some(sender), Some(receiver), "new_message",
                    "New message from " + OptionText(senderName), "/chat/" + room)
  }

  class PersonalChatConsumer {
    const channelName: string
    var roomName: string
    var roomGroupName: string
    var accepted: bool

    constructor (channelName: string)
      ensures this.channelName == channelName && !accepted
    {
      this.channelName := channelName;
      roomName, roomGroupName, accepted := "", "", false;
    }

    /** `connect`: the thread name from the URL names both the room and its group; the
        connection joins that group before the socket is accepted. */
    method Connect(layer: Layer, threadName: string)
      modifies this, layer`groups
      ensures roomName == threadName && roomGroupName == threadName && accepted
      ensures layer.groups == old(layer.groups)[threadName := Members(old(layer.groups), threadName) + {channelName}]
    {
      roomName := threadName;
      roomGroupName := roomName;
      layer.GroupAdd(roomGroupName, channelName);
      accepted := true;
    }

    /** `disconnect`: the connection leaves the group it joined. */
    method Disconnect(layer: Layer)
      modifies layer`groups
      ensures layer.groups == old(layer.groups)[roomGroupName := Members(old(layer.groups), roomGroupName) - {channelName}]
      ensures channelName !in Members(layer.groups, roomGroupName)
    {
      layer.GroupDiscard(roomGroupName, channelName);
    }

    /** `receive` for a frame `{"message", "sender", "receiver"}`. The ghost `steps` lists the
        rows written and the pushes made, in order. */
    method Receive(db: Database, layer: Layer, message: string, senderId: nat, receiverId: nat)
      returns (ghost steps: seq<Effect>)
      requires db.NotificationsKeyed()
      modifies db`chats, db`notifications, db`nextId, layer`log
      ensures db.NotificationsKeyed()
      ensures !(senderId in db.users && receiverId in db.users) ==>
                db.chats == old(db.chats) && db.notifications == old(db.notifications)
                && db.nextId == old(db.nextId) && layer.log == old(layer.log) && steps == []
      ensures senderId in db.users && receiverId in db.users ==>
                var sender := db.users[senderId];
                var chat := NewChat(old(db.nextId), senderId, receiverId, Some(message), Some(roomName));
                var notice := ChatNotice(old(db.nextId) + 1, senderId, receiverId, sender.username, roomName);
                var broadcast := Push(roomGroupName, Members(layer.groups, roomGroupName), ChatMessage(chat));
                var alert := Push(NotificationGroup(receiverId), Members(layer.groups, NotificationGroup(receiverId)),
                                  NotificationData("new_message", sender.username, Some(message),
                                                   notice.text.value, notice.link.value));
                db.chats == old(db.chats) + [chat]
                && db.notifications == old(db.notifications) + [notice]
                && db.nextId == old(db.nextId) + 2
                && layer.log == old(layer.log) + [broadcast, alert]
                && steps == [SavedChat(chat), Pushed(broadcast), Pushed(alert), SavedNotification(notice)]
    {
      if senderId !in db.users || receiverId !in db.users {
        return [];
      }
      var sender := db.users[senderId];
      // save_message
      var chat := NewChat(db.nextId, senderId, receiverId, Some(message), Some(roomName));
      db.chats := db.chats + [chat];
      db.nextId := db.nextId + 1;
      layer.GroupSend(roomGroupName, ChatMessage(chat));
      var link := "/chat/" + roomName;
      var text := "New message from " + OptionText(sender.username);
      var group := NotificationGroup(receiverId);
      layer.GroupSend(group, NotificationData("new_message", sender.username, Some(message), text, link));
      // create_notification
      var notice := ChatNotice(db.nextId, senderId, receiverId, sender.username, roomName);
      AddNotification(db.notifications, db.nextId, notice);
      db.notifications := db.notifications + [notice];
      db.nextId := db.nextId + 1;
      steps := [SavedChat(chat), Pushed(layer.log[|layer.log| - 2]), Pushed(layer.log[|layer.log| - 1]),
                SavedNotification(notice)];
    }
  }

  class NotificationConsumer {
    const channelName: string
    var userId: string
    var notificationGroupName: string
    var accepted: bool

    constructor (channelName: string)
      ensures this.channelName == channelName && !accepted
    {
      this.channelName := channelName;
      userId, notificationGroupName, accepted := "", "", false;
    }

    /** `connect`: the user id from the URL names the group `notification_{user_id}`. */
    method Connect(layer: Layer, urlUserId: string)
      modifies this, layer`groups
      ensures userId == urlUserId && notificationGroupName == "notification_" + urlUserId && accepted
      ensures layer.groups == old(layer.groups)[notificationGroupName :=
                                                  Members(old(layer.groups), notificationGroupName) + {channelName}]
    {
      userId := urlUserId;
      notificationGroupName := "notification_" + userId;
      layer.GroupAdd(notificationGroupName, channelName);
      accepted := true;
    }

    /** `disconnect`: the connection leaves its notification group. */
    method Disconnect(layer: Layer)
      modifies layer`groups
      ensures layer.groups == old(layer.groups)[notificationGroupName :=
                                                  Members(old(layer.groups), notificationGroupName) - {channelName}]
      ensures channelName !in Members(layer.groups, notificationGroupName)
    {
      layer.GroupDiscard(notificationGroupName, channelName);
    }
  }

  /** A socket opened for the URL of user `id` joins exactly the group that chat and task
      pushes for `id` are sent to, and no other user's. */
  lemma SocketGroupMatchesPushes(id: nat, other: nat)
    ensures "notification_" + NatToString(id) == NotificationGroup(id)
    ensures other != id ==> "notification_" + NatToString(id) != NotificationGroup(other)
  {
    if other != id && "notification_" + NatToString(id) == NotificationGroup(other) {
      NotificationGroupInjective(id, other);
    }
  }
}

/** One message of the public feed (`MessageItem`): its per-message menu
    with the report and block actions. */
module MessageItem {
  import opened Types

  /** What a menu action hands to its callback. */
  datatype Action = ReportAction(messageId: string, reason: Option<string>) | BlockAction(handle: string)

  class MessageItem {
    const message: Message
    const isOwn: bool
    var menuOpen: bool

    /** The menu starts closed. */
    constructor (message: Message, isOwn: bool)
      ensures this.message == message && this.isOwn == isOwn && !menuOpen
    {
      this.message := message;
      this.isOwn := isOwn;
      menuOpen := false;
    }

    /** The actions (the ⋮ button) are rendered only for other people's messages. */
    predicate ActionsShown()
      reads this
    {
      !isOwn
    }

    /** The menu is rendered only inside the actions, and only while open. */
    predicate MenuShown(): (shown: bool)
      reads this
      ensures shown ==> ActionsShown()
      ensures shown <==> !isOwn && menuOpen
    {
      ActionsShown() && menuOpen
    }

    /** The ⋮ button flips the menu. */
    method ToggleMenu()
      modifies this`menuOpen
      ensures menuOpen == !old(menuOpen)
    {
      menuOpen := !menuOpen;
    }

    /** "Report": the message id, with no reason, goes to `onReport`, and
        the menu closes. */
    method Report() returns (action: Action)
      modifies this`menuOpen
      ensures action == ReportAction(message.id, None) && !menuOpen
    {
      action := ReportAction(message.id, None);
      menuOpen := false;
    }

    /** "Block user": the message's handle goes to `onBlock`, and the menu closes. */
    method Block() returns (action: Action)
      modifies this`menuOpen
      ensures action == BlockAction(message.handle) && !menuOpen
    {
      action := BlockAction(message.handle);
      menuOpen := false;
    }
  }
}

/**
 * The chat panel of a session: sending gated by `isEnabled`, incoming
 * messages, and the unread badge on the chat button.
 */
module Chat {
  import opened JsString
  import opened Messages

  /** Who wrote a line of the transcript. */
  datatype Side = Self | Remote

  /** One message as `_appendMessage` shows it: text, sender name and side. */
  datatype ChatLine = ChatLine(text: string, sender: string, side: Side)

  /** The badge element: its text and whether it carries the `hidden` class. */
  datatype Badge = Badge(text: string, hidden: bool)

  /** What `_updateBadge` makes of the badge for an unread count. */
  function BadgeFor(count: nat): (b: Badge)
    ensures b.hidden <==> count == 0
    ensures |b.text| >= 1 && (forall k :: 0 <= k < |b.text| ==> IsDigit(b.text[k])) && DigitsValue(b.text) == count
  {
    DecimalRoundTrip(count);
    Badge(Decimal(count), count == 0)
  }

  /**
   * What `sendMessage` sends for the input box's text: the trimmed text,
   * provided the chat is enabled and the trimmed text is not empty.
   */
  function Outgoing(enabled: bool, input: string): (content: string)
    ensures enabled ==> content == Trim(input)
    ensures content != "" ==> enabled
    ensures content != "" ==> !IsWhitespace(content[0]) && !IsWhitespace(content[|content| - 1])
    ensures content == "" <==> !enabled || forall k :: 0 <= k < |input| ==> IsWhitespace(input[k])
  {
    if enabled then Trim(input) else ""
  }

  class ChatManager {
    /** Whether the page has the badge element and the open-chat button. */
    const hasBadge: bool
    const hasOpenChatButton: bool

    var isEnabled: bool
    var unreadCount: nat
    /** The text of the message input. */
    var input: string
    var badge: Badge
    var openChatDisabled: bool
    /** The messages handed to the peer adapter, oldest first. */
    var sent: seq<Message>
    var transcript: seq<ChatLine>

    /** The badge, where there is one, shows the unread count. */
    predicate BadgeInSync()
      reads this`badge, this`unreadCount
    {
      hasBadge ==> badge == BadgeFor(unreadCount)
    }

    /** A new chat panel: disabled, nothing unread; the badge keeps what the page gave it. */
    constructor (withBadge: bool, withOpenChatButton: bool, initialBadge: Badge, buttonDisabled: bool)
      ensures hasBadge == withBadge && hasOpenChatButton == withOpenChatButton
      ensures !isEnabled && unreadCount == 0 && input == ""
      ensures badge == initialBadge && openChatDisabled == buttonDisabled
      ensures sent == [] && transcript == []
    {
      hasBadge := withBadge;
      hasOpenChatButton := withOpenChatButton;
      isEnabled := false;
      unreadCount := 0;
      input := "";
      badge := initialBadge;
      openChatDisabled := buttonDisabled;
      sent := [];
      transcript := [];
    }

    /** The user edits the message input. */
    method InputEdited(text: string)
      modifies this`input
      ensures input == text
    {
      input := text;
    }

    /** `enable(state)`: sends are allowed exactly when `state`; the open-chat button follows. */
    method Enable(state: bool)
      modifies this`isEnabled, this`openChatDisabled
      ensures isEnabled == state
      ensures hasOpenChatButton ==> openChatDisabled == !state
      ensures !hasOpenChatButton ==> openChatDisabled == old(openChatDisabled)
    {
      isEnabled := state;
      if hasOpenChatButton {
        openChatDisabled := !state;
      }
    }

    /**
     * `sendMessage()` with `selfName` the name the identity provider gives:
     * a disabled chat or a blank input sends nothing and keeps the input;
     * otherwise exactly one chat message with the trimmed input goes out,
     * is shown as the user's own, and the input is cleared.
     */
    method SendMessage(selfName: string)
      modifies this`sent, this`transcript, this`input
      ensures var content := Outgoing(old(isEnabled), old(input));
        && (content == "" ==> sent == old(sent) && transcript == old(transcript) && input == old(input))
        && (content != "" ==> (&& sent == old(sent) + [ChatMessage(content)]
                               && transcript == old(transcript) + [ChatLine(content, selfName, Self)]
                               && input == ""))
    {
      if !isEnabled {
        return;
      }
      var content := Trim(input);
      if content == "" {
        return;
      }
      sent := sent + [ChatMessage(content)];
      transcript := transcript + [ChatLine(content, selfName, Self)];
      input := "";
    }

    /**
     * `handleIncomingMessage(content, peerName)` while the chat modal is
     * hidden (`modalHidden`) or open: the message is shown, and it counts
     * as unread only when the modal is hidden.
     */
    method HandleIncomingMessage(content: string, peerName: string, modalHidden: bool)
      modifies this`transcript, this`unreadCount, this`badge
      ensures modalHidden ==> BadgeInSync()
      ensures transcript == old(transcript) + [ChatLine(content, peerName, Remote)]
      ensures modalHidden ==> unreadCount == old(unreadCount) + 1
      ensures !modalHidden ==> unreadCount == old(unreadCount) && badge == old(badge)
      ensures hasBadge && modalHidden ==> !badge.hidden
    {
      transcript := transcript + [ChatLine(content, peerName, Remote)];
      if modalHidden {
        unreadCount := unreadCount + 1;
        UpdateBadge();
      }
    }

    /** `resetUnread()`: nothing is unread and the badge is hidden. */
    method ResetUnread()
      modifies this`unreadCount, this`badge
      ensures unreadCount == 0 && BadgeInSync()
      ensures hasBadge ==> badge.hidden
      ensures !hasBadge ==> badge == old(badge)
    {
      unreadCount := 0;
      UpdateBadge();
    }

    /** `_updateBadge()`: the badge, if present, shows the count and hides at zero. */
    method UpdateBadge()
      modifies this`badge
      ensures BadgeInSync()
      ensures hasBadge ==> badge.hidden == (unreadCount == 0) && badge.text == Decimal(unreadCount)
      ensures !hasBadge ==> badge == old(badge)
    {
      if hasBadge {
        badge := BadgeFor(unreadCount);
      }
    }
  }
}

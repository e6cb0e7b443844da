/** `NotificationService`: when enabled, hands a notification to the broker
    and then e-mails it directly; neither failure reaches the caller. */
module Notifications {
  import opened Events

  /** The effects of one `sendNotification` call; `brokerFails` and
      `mailFails` say whether the broker send and the mail send throw. */
  function PublishEffects(enabled: bool, topic: string, n: NotificationMessage,
                          brokerFails: bool, mailFails: bool): seq<Effect> {
    if !enabled then []
    else [BrokerSend(topic, n, !brokerFails), EmailSend(MailOf(n), !mailFails)]
  }

  class NotificationService {
    /** `app.notification.enabled`, true unless configured otherwise. */
    const enabled: bool
    /** `app.notification.kafka.topic.notifications`. */
    const topic: string
    /** Every broker send and mail send attempted, in order. */
    var effects: seq<Effect>

    constructor (enabled: bool, topic: string)
      ensures this.enabled == enabled && this.topic == topic && effects == []
    {
      this.enabled := enabled;
      this.topic := topic;
      effects := [];
    }

    /** Builds the mail from the notification and attempts it once; a failure is caught. */
    method SendEmail(n: NotificationMessage, mailFails: bool)
      modifies this`effects
      ensures effects == old(effects) + [EmailSend(MailOf(n), !mailFails)]
    {
      var mail := Mail(n.recipient, n.subject, n.message);
      effects := effects + [EmailSend(mail, !mailFails)];
    }

    /** Disabled: nothing. Enabled: one broker send to the topic, whose
        failure is caught, then the direct e-mail. */
    method SendNotification(n: NotificationMessage, brokerFails: bool, mailFails: bool)
      modifies this`effects
      ensures effects == old(effects) + PublishEffects(enabled, topic, n, brokerFails, mailFails)
    {
      if !enabled {
        return;
      }
      effects := effects + [BrokerSend(topic, n, !brokerFails)];
      SendEmail(n, mailFails);
    }
  }

  /** Disabled notifications produce no broker send and no e-mail. */
  lemma DisabledSendsNothing(topic: string, n: NotificationMessage, brokerFails: bool, mailFails: bool)
    ensures PublishEffects(false, topic, n, brokerFails, mailFails) == []
  {
  }

  /** Enabled: exactly one broker send, of this notification to the
      configured topic, and after it exactly one e-mail whose recipient,
      subject and text are the notification's, whether or not the broker
      send failed. */
  lemma EnabledSendsBrokerThenEmail(topic: string, n: NotificationMessage, brokerFails: bool, mailFails: bool)
    ensures var fx := PublishEffects(true, topic, n, brokerFails, mailFails);
      && |fx| == 2
      && fx[0].BrokerSend? && fx[0].topic == topic && fx[0].message == n && fx[0].delivered == !brokerFails
      && fx[1].EmailSend? && fx[1].delivered == !mailFails
      && fx[1].mail.to == n.recipient && fx[1].mail.subject == n.subject && fx[1].mail.text == n.message
      && (forall k :: 0 <= k < |fx| && fx[k].BrokerSend? ==> k == 0)
  {
  }
}

/** `NotificationConsumerService`: every consumed notification is routed to
    the e-mail channel; a missing mail sender or a failing send is contained. */
module Consumer {
  import opened Events
  import opened Notifications

  /** The optional mail sender: absent, or present and failing or not. */
  datatype Mailer = NoMailSender | MailSender(fails: bool)

  /** What the private `sendEmail` does: skip with a warning, send, or throw
      after the attempt. */
  datatype SendOutcome = NotConfigured | Sent(mail: Mail) | Threw(mail: Mail)

  function SendEmail(mailer: Mailer, n: NotificationMessage): SendOutcome {
    if mailer.NoMailSender? then NotConfigured
    else
      var mail := Mail(n.recipient, n.subject, n.message);
      if mailer.fails then Threw(mail) else Sent(mail)
  }

  /** The result of consuming one message: the mail sends attempted, and
      whether a failure was caught and logged. The call always returns. */
  datatype Consumed = Consumed(effects: seq<Effect>, errorLogged: bool)

  /** The type's handler: each of the four calls `sendEmail` once. */
  function Handle(mailer: Mailer, n: NotificationMessage): SendOutcome {
    match n.notificationType
    case TaskAssigned => SendEmail(mailer, n)
    case TaskStatusChanged => SendEmail(mailer, n)
    case TaskReminder => SendEmail(mailer, n)
    case TaskOverdue => SendEmail(mailer, n)
  }

  /** `consumeNotification`: runs the handler and catches what `sendEmail`
      throws. Nothing is retried or requeued. */
  function ConsumeNotification(mailer: Mailer, n: NotificationMessage): Consumed {
    match Handle(mailer, n)
    case NotConfigured => Consumed([], false)
    case Sent(m) => Consumed([EmailSend(m, true)], false)
    case Threw(m) => Consumed([EmailSend(m, false)], true)
  }

  /** Whatever its type, a message is handled by one e-mail send and nothing
      else: the SMS, push and Slack stubs are never reached, and the type
      does not change what is sent. */
  lemma EveryTypeSendsEmailOnly(mailer: Mailer, n: NotificationMessage, t: NotificationType)
    ensures Handle(mailer, n) == SendEmail(mailer, n)
    ensures Handle(mailer, n.(notificationType := t)) == Handle(mailer, n)
  {
  }

  /** At most one mail attempt per message: none without a mail sender, one
      otherwise, carrying the recipient, subject and text verbatim; a failure
      is logged and never retried. */
  lemma ConsumeAttemptsAtMostOnce(mailer: Mailer, n: NotificationMessage)
    ensures var c := ConsumeNotification(mailer, n);
      && (mailer.NoMailSender? ==> c == Consumed([], false))
      && (mailer.MailSender? ==>
            && |c.effects| == 1 && c.effects[0].EmailSend?
            && c.effects[0].mail == Mail(n.recipient, n.subject, n.message)
            && c.effects[0].delivered == !mailer.fails)
      && (c.errorLogged <==> mailer.MailSender? && mailer.fails)
  {
  }

  /** With notifications enabled, both sends succeeding and a working mail
      sender on the consumer, the recipient receives the same mail twice:
      once directly from the publisher and once through the broker. */
  lemma DoubleDelivery(topic: string, n: NotificationMessage)
    ensures var published := PublishEffects(true, topic, n, false, false);
      var consumed := ConsumeNotification(MailSender(false), published[0].message);
      && published[1] == EmailSend(MailOf(n), true)
      && consumed.effects == [EmailSend(MailOf(n), true)]
  {
  }
}

/** Domain events raised by the task services, the notification messages built
    from them, and the observable effects of the notification senders. */
module Events {
  import opened Wrappers
  import opened Domain

  datatype EventType = Created | Updated | StatusChanged | Assigned | Deleted | Reminder

  /** A published event carries the task as it was when the event was raised. */
  datatype TaskEvent = TaskEvent(task: Task, eventType: EventType)

  datatype NotificationType = TaskAssigned | TaskStatusChanged | TaskReminder | TaskOverdue

  datatype NotificationMessage = NotificationMessage(
    recipient: string,
    subject: string,
    message: string,
    notificationType: NotificationType,
    taskId: TaskId,
    timestamp: DateTime)

  /** A `SimpleMailMessage`. */
  datatype Mail = Mail(to: string, subject: string, text: string)

  /** The `SimpleMailMessage` built for a notification. */
  function MailOf(n: NotificationMessage): Mail {
    Mail(n.recipient, n.subject, n.message)
  }

  /** One attempt to hand something to the outside world, and whether it went through. */
  datatype Effect =
    | BrokerSend(topic: string, message: NotificationMessage, delivered: bool)
    | EmailSend(mail: Mail, delivered: bool)

  /** The application event publisher: every published event, in publication
      order. Listeners run on every published event; nothing holds an event back
      until a transaction commits. */
  class EventPublisher {
    var published: seq<TaskEvent>

    constructor ()
      ensures published == []
    {
      published := [];
    }

    method PublishEvent(e: TaskEvent)
      modifies this
      ensures published == old(published) + [e]
    {
      published := published + [e];
    }
  }
}

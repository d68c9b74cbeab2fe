/** The critical sections of the notification manager, on its own fields. */
module QodNotificationManagers {
  import opened Notifications

  class QodNotificationManager {
    const config: Config
    var running: bool
    var taskQueue: seq<Task>
    var retryQueue: seq<Task>
    var sessionStats: map<string, Stats>

    ghost function View(): Shared
      reads this
    {
      Shared(running, taskQueue, retryQueue, sessionStats)
    }

    constructor (config: Config)
      ensures this.config == config && View() == INITIAL.sh
    {
      this.config := config;
      running, taskQueue, retryQueue, sessionStats := false, [], [], map[];
    }

    method UpdateSessionStats(session: string, success: bool)
      modifies `sessionStats
      ensures View() == old(View()).(stats := UpdateStats(old(sessionStats), session, success))
    {
      if session == "" {
        return;
      }
      var stats := StatsOf(sessionStats, session);
      if success {
        stats := stats.(successful := stats.successful + 1);
        if stats.pending > 0 {
          stats := stats.(pending := stats.pending - 1);
        }
      } else {
        stats := stats.(pending := stats.pending + 1);
      }
      stats := stats.(totalSent := stats.successful + stats.failed);
      sessionStats := sessionStats[session := stats];
    }

    /** Runs under the queue lock; the answer tells a full queue from an accepted notification. */
    method QueueNotification(id: nat, session: string, hasCallback: bool, now: int) returns (queued: bool)
      modifies this
      ensures queued <==> |old(taskQueue)| < config.maxQueueSize
      ensures View() == if queued then Enqueued(old(View()), Task(id, session, hasCallback, 0, now)) else old(View())
    {
      if |taskQueue| >= config.maxQueueSize {
        return false;
      }
      taskQueue := taskQueue + [Task(id, session, hasCallback, 0, now)];
      UpdateSessionStats(session, false);
      return true;
    }

    /** `retry_queue_.top()`: the scan a priority queue saves. */
    method FindTop() returns (top: nat)
      requires retryQueue != []
      ensures IsTop(retryQueue, top)
    {
      top := 0;
      for i := 0 to |retryQueue|
        invariant top < |retryQueue|
        invariant forall j :: 0 <= j < i ==> retryQueue[top].nextRetry <= retryQueue[j].nextRetry
      {
        if retryQueue[i].nextRetry < retryQueue[top].nextRetry {
          top := i;
        }
      }
    }

    /** The worker's section under the queue lock: a due retry first, then the oldest new task.
        The result is what the step TakeRetry or TakeNew gives; with neither enabled nothing happens. */
    method TakeTask(now: int) returns (hasTask: bool, task: Task)
      modifies this
      ensures hasTask <==> old(running) && (old(RetryDue(View(), now)) || old(taskQueue) != [])
      ensures hasTask && old(RetryDue(View(), now)) ==>
                exists i: nat :: IsTop(old(retryQueue), i) && old(retryQueue)[i].nextRetry <= now
                  && task == old(retryQueue)[i] && View() == old(View()).(retry := Without(old(retryQueue), i))
      ensures hasTask && !old(RetryDue(View(), now)) ==>
                task == old(taskQueue)[0] && View() == old(View()).(queue := old(taskQueue)[1..])
      ensures !hasTask ==> View() == old(View())
    {
      task := Task(0, "", false, 0, 0);
      if !running {
        return false, task;
      }
      if retryQueue != [] {
        var top := FindTop();
        if retryQueue[top].nextRetry <= now {
          task := retryQueue[top];
          retryQueue := Without(retryQueue, top);
          return true, task;
        }
      }
      if taskQueue != [] {
        task := taskQueue[0];
        taskQueue := taskQueue[1..];
        return true, task;
      }
      return false, task;
    }

    method PushRetryTask(task: Task)
      modifies `retryQueue
      ensures View() == old(View()).(retry := old(retryQueue) + [task])
    {
      retryQueue := retryQueue + [task];
    }

    method RequestStop()
      modifies `running
      ensures View() == old(View()).(running := false)
    {
      running := false;
    }

    /** After the workers are joined: only the task queue is emptied, retries stay queued. */
    method ClearQueue() returns (dropped: seq<Task>)
      modifies `taskQueue
      ensures dropped == old(taskQueue) && View() == old(View()).(queue := [])
    {
      dropped := taskQueue;
      taskQueue := [];
    }

    method GetPendingCount() returns (n: nat)
      ensures n == PendingOf(View())
    {
      n := |taskQueue| + |retryQueue|;
    }
  }
}

/** Which options are accepted and what is stored of them, said of the options. */
module OptionLaws {
  import opened Models
  import opened Lifecycle
  import Cron

  /** No schedule, an empty one, or one that validates. */
  ghost predicate ScheduleAccepted(text: Option<string>) {
    text.None? || Cron.Validate(text.value).Ok?
  }

  /** What is stored of an accepted schedule: none of an empty one, the normal form of any other. */
  ghost predicate ScheduleStored(text: Option<string>, stored: Option<string>) {
    if text.None? || Cron.Validate(text.value) == Ok("") then stored == None
    else Cron.Validate(text.value).Ok? && stored == Some(Cron.Validate(text.value).value)
  }

  lemma ScheduleExactly(text: Option<string>)
    ensures NormalizeCron(text).Ok? <==> ScheduleAccepted(text)
    ensures NormalizeCron(text).Ok? ==> ScheduleStored(text, NormalizeCron(text).value)
  {
    hide Cron.Validate;
  }

  /** Absent, or at least 0. */
  ghost predicate AbsentOrNatural(v: Option<int>) {
    v.Some? ==> v.value >= 0
  }

  /** Options are accepted if and only if every number is in its range and both schedules are. */
  lemma AcceptedExactly(o: TaskOptions)
    ensures Normalize(o).Ok? <==>
            && o.requestedGpus > 0 && o.minFreeSeconds >= 0
            && AbsentOrNatural(o.maxMemoryUsedMb) && AbsentOrNatural(o.minFreeMemoryMb)
            && (o.maxUtilizationPercent.Some? ==> 0 <= o.maxUtilizationPercent.value <= 100)
            && ScheduleAccepted(o.startCron) && ScheduleAccepted(o.stopCron)
  {
    ScheduleExactly(o.startCron);
    ScheduleExactly(o.stopCron);
    hide NormalizeCron, ScheduleAccepted;
  }

  /** Accepted options are stored as they are, but for the schedules' form and that background work is preemptible. */
  lemma StoredExactly(o: TaskOptions)
    requires Normalize(o).Ok?
    ensures var n := Normalize(o).value;
            && ScheduleStored(o.startCron, n.startCron) && ScheduleStored(o.stopCron, n.stopCron)
            && (n.preemptible <==> o.preemptible || o.background)
            && n == o.(startCron := n.startCron, stopCron := n.stopCron, preemptible := n.preemptible)
  {
    ScheduleExactly(o.startCron);
    ScheduleExactly(o.stopCron);
    hide NormalizeCron, ScheduleStored;
  }
}

/** Interleavings: a schedule names the actor of each step. */
module Schedules {

  ghost predicate ValidSchedule(schedule: seq<nat>, actors: nat) {
    forall i :: 0 <= i < |schedule| ==> schedule[i] < actors
  }
}

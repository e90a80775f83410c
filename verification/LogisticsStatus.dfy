/** The parcel lifecycle: which status updates are accepted, and what accepted runs look like. */
module LogisticsStatus {
  import opened Common
  import Amounts

  datatype Status = CREATED | PICKED_UP | IN_TRANSIT | OUT_FOR_DELIVERY | DELIVERED | EXCEPTION | RETURNED

  function AllowedTransitions(s: Status): set<Status> {
    match s
    case CREATED => {PICKED_UP}
    case PICKED_UP => {IN_TRANSIT}
    case IN_TRANSIT => {OUT_FOR_DELIVERY, EXCEPTION}
    case OUT_FOR_DELIVERY => {DELIVERED, EXCEPTION}
    case EXCEPTION => {IN_TRANSIT, RETURNED}
    case DELIVERED => {RETURNED}
    case RETURNED => {}
  }

  /** A missing status is never validatable; repeating a status is always allowed. */
  predicate IsAllowed(prev: Option<Status>, next: Option<Status>) {
    prev.Some? && next.Some? && (prev == next || next.value in AllowedTransitions(prev.value))
  }

  /** The accepted changes, one by one. */
  lemma {:induction false} ChangesExact(a: Status, b: Status)
    ensures IsAllowed(Some(a), Some(b)) <==>
              a == b || (a, b) in {(CREATED, PICKED_UP), (PICKED_UP, IN_TRANSIT),
                                   (IN_TRANSIT, OUT_FOR_DELIVERY), (IN_TRANSIT, EXCEPTION),
                                   (OUT_FOR_DELIVERY, DELIVERED), (OUT_FOR_DELIVERY, EXCEPTION),
                                   (EXCEPTION, IN_TRANSIT), (EXCEPTION, RETURNED), (DELIVERED, RETURNED)}
    ensures !IsAllowed(None, Some(b)) && !IsAllowed(Some(a), None) && !IsAllowed(None, None)
  {
  }

  /** A run of updates each of which is accepted. */
  predicate Accepted(run: seq<Status>) {
    forall i :: 0 < i < |run| ==> IsAllowed(Some(run[i - 1]), Some(run[i]))
  }

  function Phase(s: Status): nat {
    match s
    case CREATED => 0
    case PICKED_UP => 1
    case IN_TRANSIT | OUT_FOR_DELIVERY | EXCEPTION => 2
    case DELIVERED => 3
    case RETURNED => 4
  }

  lemma StepKeepsPhase(a: Status, b: Status)
    requires IsAllowed(Some(a), Some(b))
    ensures Phase(a) <= Phase(b)
  {
  }

  /** Along an accepted run the phase never decreases, and nothing but RETURNED follows RETURNED. */
  lemma {:induction false} PhaseNeverDecreases(run: seq<Status>, i: nat, j: nat)
    requires Accepted(run) && i <= j < |run|
    ensures Phase(run[i]) <= Phase(run[j])
    ensures run[i] == RETURNED ==> run[j] == RETURNED
    decreases j
  {
    if i < j {
      PhaseNeverDecreases(run, i, j - 1);
      assert IsAllowed(Some(run[j - 1]), Some(run[j]));
      StepKeepsPhase(run[j - 1], run[j]);
    }
  }

  /** The last position where the run is not `s`, before a stretch of `s` up to j. */
  lemma {:induction false} Entered(run: seq<Status>, j: nat, s: Status) returns (i: nat)
    requires Accepted(run) && j < |run| && run[j] == s && run[0] != s
    ensures i < j && run[i] != s && run[i + 1] == s && s in AllowedTransitions(run[i])
    decreases j
  {
    assert IsAllowed(Some(run[j - 1]), Some(run[j]));
    if run[j - 1] == s {
      i := Entered(run, j - 1, s);
    } else {
      i := j - 1;
    }
  }

  /** An accepted run from CREATED to DELIVERED was picked up, then in transit, then out
      for delivery, in that order, before it was delivered. */
  lemma {:induction false} DeliveryWasComplete(run: seq<Status>, d: nat)
    requires Accepted(run) && d < |run| && run[0] == CREATED && run[d] == DELIVERED
    ensures exists p, t, o :: 0 < p < t < o < d &&
              run[p] == PICKED_UP && run[t] == IN_TRANSIT && run[o] == OUT_FOR_DELIVERY
  {
    var o := Entered(run, d, DELIVERED);
    assert run[o] == OUT_FOR_DELIVERY;
    var t := FirstTransit(run, o);
    var p := Entered(run, t, IN_TRANSIT);
    assert run[p] == PICKED_UP;
  }

  /** Before anything of phase 2 other than IN_TRANSIT there was a first IN_TRANSIT, entered
      straight from PICKED_UP. */
  lemma {:induction false} FirstTransit(run: seq<Status>, o: nat) returns (t: nat)
    requires Accepted(run) && o < |run| && run[0] == CREATED && run[o] in {OUT_FOR_DELIVERY, EXCEPTION, IN_TRANSIT}
    ensures 0 < t <= o && run[t] == IN_TRANSIT && run[t - 1] == PICKED_UP
    ensures run[o] != IN_TRANSIT ==> t < o
    ensures forall k :: 0 <= k < t ==> run[k] != IN_TRANSIT
    decreases o
  {
    assert IsAllowed(Some(run[o - 1]), Some(run[o]));
    if run[o - 1] in {OUT_FOR_DELIVERY, EXCEPTION, IN_TRANSIT} {
      t := FirstTransit(run, o - 1);
    } else {
      t := o;
      forall k | 0 <= k < t ensures run[k] != IN_TRANSIT {
        PhaseNeverDecreases(run, k, o - 1);
      }
    }
  }

  /** An accepted run that leads from a to b. */
  ghost predicate Leads(run: seq<Status>, a: Status, b: Status) {
    run != [] && Accepted(run) && run[0] == a && Last(run) == b
  }

  function Next(s: Status): Status {
    match s
    case CREATED => PICKED_UP
    case PICKED_UP => IN_TRANSIT
    case IN_TRANSIT => OUT_FOR_DELIVERY
    case OUT_FOR_DELIVERY => DELIVERED
    case DELIVERED => RETURNED
    case EXCEPTION => IN_TRANSIT
    case RETURNED => RETURNED
  }

  function Distance(s: Status): nat {
    match s
    case RETURNED => 0 case DELIVERED => 1 case OUT_FOR_DELIVERY => 2 case IN_TRANSIT => 3
    case EXCEPTION => 4 case PICKED_UP => 4 case CREATED => 5
  }

  /** From every status the regular course leads to each later status on it. */
  lemma {:induction false} RegularCourse(a: Status, b: Status) returns (run: seq<Status>)
    requires b != EXCEPTION && Distance(b) <= Distance(a) && (a == EXCEPTION ==> Distance(b) < 4)
    ensures Leads(run, a, b)
    decreases Distance(a)
  {
    if a == b {
      run := [a];
    } else {
      var rest := RegularCourse(Next(a), b);
      run := [a] + rest;
    }
  }

  lemma {:induction false} Join(r1: seq<Status>, r2: seq<Status>, a: Status, b: Status, c: Status)
    requires Leads(r1, a, b) && Leads(r2, b, c)
    ensures Leads(r1 + r2, a, c)
  {
  }

  /** A status can be reached from another exactly when its phase is not earlier. */
  lemma {:induction false} ReachableIff(a: Status, b: Status)
    ensures (exists run :: Leads(run, a, b)) <==> Phase(a) <= Phase(b)
  {
    if Phase(a) <= Phase(b) {
      var run := Course(a, b);
    }
    forall run | Leads(run, a, b) ensures Phase(a) <= Phase(b) {
      PhaseNeverDecreases(run, 0, |run| - 1);
    }
  }

  /** A run to b: within phase 2, and to an exception, by way of IN_TRANSIT and EXCEPTION. */
  lemma {:induction false} Course(a: Status, b: Status) returns (run: seq<Status>)
    requires Phase(a) <= Phase(b)
    ensures Leads(run, a, b)
  {
    if b == EXCEPTION && a != EXCEPTION {
      if a == OUT_FOR_DELIVERY {
        run := [a, b];
      } else {
        var r := RegularCourse(a, IN_TRANSIT);
        Join(r, [IN_TRANSIT, EXCEPTION], a, IN_TRANSIT, EXCEPTION);
        run := r + [IN_TRANSIT, EXCEPTION];
      }
    } else if a == OUT_FOR_DELIVERY && b == IN_TRANSIT {
      run := [OUT_FOR_DELIVERY, EXCEPTION, IN_TRANSIT];
    } else if a == b {
      run := [a];
    } else {
      run := RegularCourse(a, b);
    }
  }

  // -------------------------------------------------------- status labels

  /** The labels each status goes by, besides its own name. */
  function Aliases(s: Status): seq<string> {
    match s
    case CREATED => ["created", "已创建", "下单", "待揽收", "已下单", "未发货", "新建"]
    case PICKED_UP => ["picked_up", "已揽收", "已取件", "揽收"]
    case IN_TRANSIT => ["in_transit", "运输中", "在途", "转运中", "运输"]
    case OUT_FOR_DELIVERY => ["out_for_delivery", "派送中", "派件中", "投递中", "派送"]
    case DELIVERED => ["delivered", "已签收", "签收", "妥投", "签收完成"]
    case EXCEPTION => ["exception", "异常", "问题件", "异常件"]
    case RETURNED => ["returned", "已退回", "退回", "退货", "退回件"]
  }

  /** A label's status, after trimming and lower-casing. */
  function NormalizeStatus(raw: Option<string>): Option<Status> {
    if raw.None? then None
    else
      var s := Amounts.Lower(Amounts.Strip(raw.value));
      if s == [] then None
      else if s in Aliases(CREATED) then Some(CREATED)
      else if s in Aliases(PICKED_UP) then Some(PICKED_UP)
      else if s in Aliases(IN_TRANSIT) then Some(IN_TRANSIT)
      else if s in Aliases(OUT_FOR_DELIVERY) then Some(OUT_FOR_DELIVERY)
      else if s in Aliases(DELIVERED) then Some(DELIVERED)
      else if s in Aliases(EXCEPTION) then Some(EXCEPTION)
      else if s in Aliases(RETURNED) then Some(RETURNED)
      else None
  }

  /** No label names two statuses, so the table of aliases is unambiguous. */
  lemma {:induction false} AliasesUnambiguous(a: Status, b: Status, i: nat, j: nat)
    requires i < |Aliases(a)| && j < |Aliases(b)| && Aliases(a)[i] == Aliases(b)[j]
    ensures a == b
  {
  }

  /** A text is a status exactly when, trimmed and lower-cased, it is one of its labels. */
  lemma {:induction false} LabelsExact(text: string, s: Status)
    ensures NormalizeStatus(Some(text)) == Some(s) <==> Amounts.Lower(Amounts.Strip(text)) in Aliases(s)
    ensures NormalizeStatus(None) == None
  {
    var name := Amounts.Lower(Amounts.Strip(text));
    NoEmptyLabel(s);
    match NormalizeStatus(Some(text)) {
      case Some(t) => OneStatus(name, t, s);
      case None =>
    }
  }

  lemma {:induction false} NoEmptyLabel(s: Status)
    ensures [] !in Aliases(s)
  {
  }

  lemma {:induction false} OneStatus(name: string, a: Status, b: Status)
    requires name in Aliases(a)
    ensures name in Aliases(b) <==> a == b
  {
    if name in Aliases(b) {
      var i :| 0 <= i < |Aliases(a)| && Aliases(a)[i] == name;
      var j :| 0 <= j < |Aliases(b)| && Aliases(b)[j] == name;
      AliasesUnambiguous(a, b, i, j);
    }
  }
}

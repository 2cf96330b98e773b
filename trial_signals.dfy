/** The post-save handler `create_unique_id_on_joining_trials` of selection_trial/models.py:
    a registration saved for the first time without a `unique_id` receives one built from
    its name, its id and a two-digit number, and is saved again. The number is drawn at
    random in the source; here it is a parameter. */
module TrialSignals {
  import opened Common
  import opened TrialModels
  import opened Store

  /** The text of the exception `None.replace(...)` raises. */
  const NoNameError := "'NoneType' object has no attribute 'replace'"

  /** The handler for the save of registration `id`; `created` tells a first save from a
      later one. */
  method AssignUniqueId(db: Database, id: nat, created: bool, num: nat) returns (r: Result<()>)
    requires id in db.registrations && 10 <= num <= 99
    modifies db`registrations
    ensures var reg := old(db.registrations)[id];
            (created && !Filled(reg.uniqueId) && reg.name.Some? ==>
               r == Ok(()) && db.registrations == old(db.registrations)[id := reg.(uniqueId := Some(UniqueId(reg.name.value, id, num)))])
            && (created && !Filled(reg.uniqueId) && reg.name.None? ==>
                  r == Err(NoNameError) && db.registrations == old(db.registrations))
            && (!created || Filled(reg.uniqueId) ==> r == Ok(()) && db.registrations == old(db.registrations))
    ensures r.Ok? && created && old(db.registrations)[id].id == id ==>
              db.registrations == old(db.registrations)[id := WithUniqueId(old(db.registrations)[id], num)]
  {
    var reg := db.registrations[id];
    if created && !Filled(reg.uniqueId) {
      if reg.name.None? {
        return Err(NoNameError);
      }
      db.registrations := db.registrations[id := reg.(uniqueId := Some(UniqueId(reg.name.value, id, num)))];
    }
    r := Ok(());
  }

  /** The registration as the handler leaves it, when it does not raise. */
  function WithUniqueId(reg: Registration, num: nat): (out: Registration)
    requires 10 <= num <= 99
    requires Filled(reg.uniqueId) || reg.name.Some?
    ensures out.(uniqueId := reg.uniqueId) == reg
    ensures Filled(out.uniqueId)
    ensures Filled(reg.uniqueId) ==> out == reg
  {
    if Filled(reg.uniqueId) then reg
    else
      var u := UniqueId(reg.name.value, reg.id, num);
      reg.(uniqueId := Some(u))
  }

  /** The second save the handler performs is not a creation, so it changes nothing: the
      identifier is assigned once. */
  lemma AssignedOnce(reg: Registration, num: nat, num': nat)
    requires 10 <= num <= 99 && 10 <= num' <= 99
    requires Filled(reg.uniqueId) || reg.name.Some?
    ensures WithUniqueId(WithUniqueId(reg, num), num') == WithUniqueId(reg, num)
  {
  }

  /** Two registrations that received an identifier from the handler under different ids
      never share it, even when the players' names are the same. */
  lemma {:induction false} GeneratedIdsDiffer(a: Registration, b: Registration, num: nat, num': nat)
    requires 10 <= num <= 99 && 10 <= num' <= 99
    requires !Filled(a.uniqueId) && !Filled(b.uniqueId) && a.name.Some? && b.name.Some?
    requires a.name == b.name && a.id != b.id
    ensures WithUniqueId(a, num).uniqueId != WithUniqueId(b, num').uniqueId
  {
    if WithUniqueId(a, num).uniqueId == WithUniqueId(b, num').uniqueId {
      UniqueIdDeterminesId(a.name.value, a.id, num, b.id, num');
    }
  }
}

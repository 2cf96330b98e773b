/** The tables of selection_trial/models.py: trials, their extra requirements, player
    registrations and the answers a registration gives to those requirements, plus the
    `unique_id` a new registration receives from its post-save signal. */
module TrialModels {
  import opened Common

  datatype Trial = Trial(
    id: nat,
    academy: Option<nat>,
    name: Option<string>,
    sport: Option<string>,
    district: Option<string>,
    isParticipantLimit: bool,
    totalParticipantLimit: Option<int>,
    isRegistrationFee: bool,
    registrationFee: Option<int>,
    isActive: bool)

  /** The fields a trial form supplies; every omitted flag falls back to its default. */
  datatype TrialForm = TrialForm(
    name: Option<string>,
    sport: Option<string>,
    district: Option<string>,
    isParticipantLimit: Option<bool>,
    totalParticipantLimit: Option<int>,
    isRegistrationFee: Option<bool>,
    registrationFee: Option<int>,
    isActive: Option<bool>)

  function OrDefault(b: Option<bool>, default: bool): bool
  {
    if b.Some? then b.value else default
  }

  /** `Trial.objects.create(...)`: `is_participant_limit` defaults to False,
      `is_registration_fee` and `is_active` to True. */
  function NewTrial(id: nat, academy: Option<nat>, f: TrialForm): (t: Trial)
    ensures t.id == id && t.academy == academy && t.name == f.name
    ensures f.isParticipantLimit.None? ==> !t.isParticipantLimit
    ensures f.isRegistrationFee.None? ==> t.isRegistrationFee
    ensures f.isActive.None? ==> t.isActive
    ensures f.isParticipantLimit.Some? ==> t.isParticipantLimit == f.isParticipantLimit.value
    ensures f.isRegistrationFee.Some? ==> t.isRegistrationFee == f.isRegistrationFee.value
    ensures f.isActive.Some? ==> t.isActive == f.isActive.value
  {
    Trial(id, academy, f.name, f.sport, f.district,
          OrDefault(f.isParticipantLimit, false), f.totalParticipantLimit,
          OrDefault(f.isRegistrationFee, true), f.registrationFee,
          OrDefault(f.isActive, true))
  }

  datatype Requirement = Requirement(trialId: nat, requirement: string)

  datatype Registration = Registration(
    id: nat,
    player: nat,
    trial: nat,
    status: Option<string>,
    name: Option<string>,
    email: Option<string>,
    uniqueId: Option<string>,
    paymentStatus: Option<string>)

  /** The answers a player supplies when registering. */
  datatype Answer = Answer(requirement: string, value: string)

  datatype Detail = Detail(registrationId: nat, requirement: string, value: string)

  const Registered := "registered"

  /** `unique_id = name.replace(" ", "") + str(id) + str(num)` with `num` drawn from [10, 99]. */
  function UniqueId(name: string, id: nat, num: nat): (u: string)
    requires 10 <= num <= 99
    ensures |u| >= 3 && AllDigits(u[|u| - 2..])
  {
    RemoveSpaces(name) + NatToString(id) + NatToString(num)
  }

  lemma TwoDigits(num: nat)
    requires 10 <= num <= 99
    ensures |NatToString(num)| == 2
  {
    assert NatToString(num) == NatToString(num / 10) + [DigitChar(num % 10)];
  }

  /** Two registrations with the same name receive different identifiers whenever their ids
      differ, whatever numbers are drawn. */
  lemma {:induction false} UniqueIdDeterminesId(name: string, id1: nat, num1: nat, id2: nat, num2: nat)
    requires 10 <= num1 <= 99 && 10 <= num2 <= 99
    requires UniqueId(name, id1, num1) == UniqueId(name, id2, num2)
    ensures id1 == id2 && num1 == num2
  {
    var p := RemoveSpaces(name);
    var a1, a2 := NatToString(id1), NatToString(id2);
    var b1, b2 := NatToString(num1), NatToString(num2);
    TwoDigits(num1);
    TwoDigits(num2);
    var u := UniqueId(name, id1, num1);
    assert u == p + a1 + b1 && u == p + a2 + b2;
    assert b1 == u[|u| - 2..] == b2;
    NatToStringInjective(num1, num2);
    assert p + a1 == u[..|u| - 2] == p + a2;
    assert a1 == (p + a1)[|p|..] == (p + a2)[|p|..] == a2;
    NatToStringInjective(id1, id2);
  }
}

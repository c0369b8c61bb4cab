/** apps/reservation/src/reservation.service.ts: reservations kept in a
    repository of field maps, created only once the payment service has
    charged for them. */
module Reservations {
  import opened Common
  import opened Database
  import opened ClientProxy
  import JwtAuthGuard

  /** A document field value. */
  datatype Value = Str(s: string) | Num(n: int) | Flag(b: bool) | Obj(fields: map<string, Value>)

  /** A reservation document without its `_id`. */
  type Fields = map<string, Value>

  /** The request body: its own fields and the `charge` sent to payments. */
  datatype CreateReservationDto = CreateReservationDto(fields: Fields, charge: Fields)

  /** The part of Stripe's PaymentIntent the service reads. */
  datatype PaymentIntent = PaymentIntent(id: string)

  const CreateChargePattern := "create_charge"

  /** `{ ...createReservationDto, invoiceId, userId }`: the later keys win. */
  function NewReservation(dto: CreateReservationDto, invoiceId: string, userId: string): (r: Fields)
    ensures r.Keys == dto.fields.Keys + {"charge", "invoiceId", "userId"}
    ensures r["invoiceId"] == Str(invoiceId) && r["userId"] == Str(userId)
    ensures r["charge"] == Obj(dto.charge)
    ensures forall key :: key in dto.fields && key !in {"charge", "invoiceId", "userId"} ==> r[key] == dto.fields[key]
  {
    dto.fields + map["charge" := Obj(dto.charge)] + map["invoiceId" := Str(invoiceId), "userId" := Str(userId)]
  }

  /** `{ $set: patch }`: the patch's fields overwrite, the others stay. */
  function SetFields(body: Fields, patch: Fields): (r: Fields)
    ensures r.Keys == body.Keys + patch.Keys
    ensures forall key :: key in patch ==> r[key] == patch[key]
    ensures forall key :: key in body && key !in patch ==> r[key] == body[key]
  {
    body + patch
  }

  /** Setting the same fields twice is setting them once. */
  lemma SetFieldsIdempotent(body: Fields, patch: Fields)
    ensures SetFields(SetFields(body, patch), patch) == SetFields(body, patch)
  {
  }

  class ReservationService {
    const reservations: AbstractRepository<Fields>
    const paymentService: Client<Fields, PaymentIntent>

    constructor (reservations: AbstractRepository<Fields>, paymentService: Client<Fields, PaymentIntent>)
      ensures this.reservations == reservations && this.paymentService == paymentService
    {
      this.reservations := reservations;
      this.paymentService := paymentService;
    }

    /** `create`: one `create_charge` call; only on its reply is a
      reservation stored, carrying the invoice id and the caller's id. */
    method Create(dto: CreateReservationDto, user: JwtAuthGuard.UserDto) returns (r: Result<Record<Fields>, Exception>)
      requires reservations.Valid()
      modifies reservations, paymentService
      ensures reservations.Valid()
      ensures paymentService.sent == old(paymentService.sent) + [Message(CreateChargePattern, dto.charge)]
      ensures var reply := paymentService.reply(|old(paymentService.sent)|, CreateChargePattern, dto.charge);
        reply.Err? ==> r == Err(reply.error) && reservations.docs == old(reservations.docs)
      ensures var reply := paymentService.reply(|old(paymentService.sent)|, CreateChargePattern, dto.charge);
        reply.Ok? ==>
          && r.Ok?
          && r.value.body == NewReservation(dto, reply.value.id, user.id)
          && (forall k :: 0 <= k < |old(reservations.docs)| ==> old(reservations.docs)[k].id != r.value.id)
          && reservations.docs == old(reservations.docs) + [r.value]
    {
      var res := paymentService.Send(CreateChargePattern, dto.charge);
      match res
      case Err(e) =>
        r := Err(e);
      case Ok(intent) =>
        var doc := reservations.Create(NewReservation(dto, intent.id, user.id));
        r := Ok(doc);
    }

    /** `findAll`: `find({})`, every stored reservation. */
    function FindAll(): (rs: seq<Record<Fields>>)
      reads reservations
      ensures rs == reservations.docs
    {
      var everything := (_: Record<Fields>) => true;
      MatchingEverything(reservations.docs, everything);
      reservations.Find(everything)
    }

    /** `findOne(id)`: the reservation with that id, or NotFound. */
    function FindOne(id: string): (r: Result<Record<Fields>, Exception>)
      reads reservations
      ensures r.Ok? ==> r.value in reservations.docs && ToHexString(r.value.id) == id
      ensures r.Err? <==> forall k :: 0 <= k < |reservations.docs| ==> ToHexString(reservations.docs[k].id) != id
      ensures r.Err? ==> r.error == NotFound(NotFoundMessage)
    {
      reservations.FindOne(ById(id))
    }

    /** `update(id, patch)`: `$set` on the reservation with that id. */
    method Update(id: string, patch: Fields) returns (r: Result<Record<Fields>, Exception>)
      requires reservations.Valid()
      modifies reservations
      ensures reservations.Valid()
      ensures (forall k :: 0 <= k < |old(reservations.docs)| ==> ToHexString(old(reservations.docs)[k].id) != id) ==>
        r == Err(NotFound(NotFoundForFilterMessage)) && reservations.docs == old(reservations.docs)
      ensures forall k :: 0 <= k < |old(reservations.docs)| && ToHexString(old(reservations.docs)[k].id) == id ==>
        && r == Ok(Record(old(reservations.docs)[k].id, SetFields(old(reservations.docs)[k].body, patch)))
        && reservations.docs == old(reservations.docs)[k := r.value]
    {
      ghost var before := reservations.docs;
      r := reservations.FindOneAndUpdate(ById(id), body => SetFields(body, patch));
      forall k | 0 <= k < |before| && ToHexString(before[k].id) == id
        ensures FirstMatch(before, ById(id)) == Some(k)
      {
        OnlyOneWithId(before, k, id);
      }
    }

    /** `remove(id)`: deletes the reservation with that id and returns it. */
    method Remove(id: string) returns (r: Result<Record<Fields>, Exception>)
      requires reservations.Valid()
      modifies reservations
      ensures reservations.Valid()
      ensures (forall k :: 0 <= k < |old(reservations.docs)| ==> ToHexString(old(reservations.docs)[k].id) != id) ==>
        r == Err(NotFound(NotFoundForFilterMessage)) && reservations.docs == old(reservations.docs)
      ensures forall k :: 0 <= k < |old(reservations.docs)| && ToHexString(old(reservations.docs)[k].id) == id ==>
        && r == Ok(old(reservations.docs)[k])
        && reservations.docs == old(reservations.docs)[..k] + old(reservations.docs)[k + 1..]
    {
      ghost var before := reservations.docs;
      r := reservations.FindOneAndDelete(ById(id));
      forall k | 0 <= k < |before| && ToHexString(before[k].id) == id
        ensures FirstMatch(before, ById(id)) == Some(k)
      {
        OnlyOneWithId(before, k, id);
      }
    }
  }
}

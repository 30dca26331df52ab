/** The records shared by the state containers and pages: users, equipment
    items and bookings, with their status unions. Clock readings are
    milliseconds; booking dates are the parsed `getTime()` values. */
module Types {
  import opened Wrappers
  import opened Dates

  datatype Role = Customer | Admin | EquipmentManager

  /** The string each role is stored as. */
  function RoleName(r: Role): string {
    match r
    case Customer => "customer"
    case Admin => "admin"
    case EquipmentManager => "equipment_manager"
  }

  datatype User = User(
    id: string,
    name: string,
    email: string,
    role: Role,
    phone: Option<string>,
    avatar: Option<string>,
    createdAt: int)

  datatype Availability = Available | Rented | Maintenance | Reserved

  function AvailabilityName(a: Availability): string {
    match a
    case Available => "available"
    case Rented => "rented"
    case Maintenance => "maintenance"
    case Reserved => "reserved"
  }

  datatype Condition = Excellent | Good | Fair | Poor

  function ConditionName(c: Condition): string {
    match c
    case Excellent => "excellent"
    case Good => "good"
    case Fair => "fair"
    case Poor => "poor"
  }

  datatype Equipment = Equipment(
    id: string,
    name: string,
    description: string,
    category: string,
    location: string,
    pricePerDay: int,
    availabilityStatus: Availability,
    conditionStatus: Condition,
    lastMaintenanceDate: string,
    images: seq<string>,
    features: Option<seq<string>>,
    specifications: Option<map<string, string>>,
    createdAt: int,
    updatedAt: int)

  datatype BookingStatus = Pending | Confirmed | Active | Completed | Cancelled

  datatype PaymentStatus = PaymentPending | Paid | Refunded

  datatype Booking = Booking(
    id: string,
    equipmentId: string,
    customerId: string,
    startDate: Instant,
    endDate: Instant,
    status: BookingStatus,
    totalPrice: int,
    paymentStatus: PaymentStatus,
    notes: Option<string>,
    createdAt: int,
    updatedAt: int)
}

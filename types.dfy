/** The records of the rental application (types/car.ts).
    Prices are whole cents; coordinates are reals. */
module CarTypes {
  import opened Options

  datatype Category = Supercar | Luxury | Sport
  datatype VehicleType = Coupe | Convertible | Sedan | Suv | Hatchback
  datatype FuelType = Gasoline | Diesel | Hybrid | Electric
  datatype Transmission = Manual | Automatic | SemiAutomatic

  datatype Car = Car(
    id: string,
    brand: string,
    model: string,
    year: int,
    engine: string,
    horsepower: int,
    pricePerDay: int,
    pricePerHour: int,
    image: string,
    interiorImage: string,
    available: bool,
    features: seq<string>,
    category: Category,
    description: string,
    vehicleType: VehicleType,
    fuelType: FuelType,
    transmission: Transmission,
    seats: int,
    doors: int)

  datatype Customer = Customer(
    id: string,
    name: string,
    email: string,
    phone: string,
    licenseNumber: string)

  datatype RentalType = Hours | Days

  /** The four states of a booking. Nothing in the ledger restricts which
      state may follow which. */
  datatype RentalStatus = Pending | Active | Completed | Cancelled

  datatype Location = Location(
    latitude: real,
    longitude: real,
    timestamp: string,
    address: Option<string>)

  datatype Rental = Rental(
    id: string,
    carId: string,
    customerId: string,
    startDate: string,
    endDate: string,
    rentalType: RentalType,
    duration: int,
    totalPrice: int,
    status: RentalStatus,
    trackingEnabled: bool,
    currentLocation: Option<Location>,
    createdAt: string)

  datatype RentalStats = RentalStats(
    totalRentals: int,
    activeRentals: int,
    totalRevenue: int,
    availableCars: int)

  datatype PaymentInfo = PaymentInfo(
    cardNumber: string,
    cardHolderName: string,
    expiryDate: string,
    cvv: string,
    bankAccount: Option<string>,
    iban: Option<string>)

  datatype Role = Admin | Client

  datatype User = User(
    id: string,
    name: string,
    email: string,
    phone: string,
    role: Role,
    createdAt: string,
    paymentInfo: Option<PaymentInfo>)

  datatype AuthState = AuthState(
    user: Option<User>,
    isAuthenticated: bool,
    isLoading: bool)

  /** The three entries the rental ledger keeps in the device's key-value
      store ("cars", "customers", "rentals"); None is a missing entry. */
  datatype Blobs = Blobs(
    cars: Option<seq<Car>>,
    customers: Option<seq<Customer>>,
    rentals: Option<seq<Rental>>)
}

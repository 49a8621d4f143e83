/** The six seed records the application starts with. */
module MockData {

  import opened Types

  const MockExpenses: seq<Expense> := [
    Expense("1", "Juan Pérez", "Visita Cliente Monterrey", "Restaurante La Capital", "2024-05-10",
      850.50, "MXN", "Comida", ReceiptFile("comida.jpg", "image/jpeg", Some("")), Pendiente),
    Expense("2", "Ana García", "Conferencia CDMX", "Hotel Marriott Reforma", "2024-05-12",
      4500.00, "MXN", "Alojamiento", ReceiptFile("hotel.pdf", "application/pdf", Some("")), Pendiente),
    Expense("3", "Juan Pérez", "Visita Cliente Monterrey", "Uber", "2024-05-10",
      230.00, "MXN", "Transporte", ReceiptFile("uber.png", "image/png", Some("")), Pendiente),
    Expense("4", "Maria Rodriguez", "Capacitación Guadalajara", "Office Depot", "2024-05-15",
      420.00, "MXN", "Otro", ReceiptFile("materiales.xml", "application/xml", Some("")), Pendiente),
    Expense("5", "Ana García", "Conferencia CDMX", "Volaris", "2024-05-11",
      2800.00, "MXN", "Transporte", ReceiptFile("vuelo.pdf", "application/pdf", Some("")), Aprobado),
    Expense("6", "Juan Pérez", "Visita Cliente Monterrey", "Cinepolis", "2024-05-10",
      350.00, "MXN", "Otro", ReceiptFile("cine.jpg", "image/jpeg", Some("")), Rechazado)
  ]
}

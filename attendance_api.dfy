/** The attendance rows the backend lists: who, on which day, with which status,
    and the student's first and last name. */
module AttendanceApi {

  /** One attendance row; `date` is a `YYYY-MM-DD` string and `status` the stored text. */
  datatype AttendanceRecord = AttendanceRecord(
    id: nat,
    student: nat,
    studentName: string,
    studentLastName: string,
    date: string,
    status: string)
}

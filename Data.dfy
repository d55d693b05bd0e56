/** The three record kinds and the constant arrays the tools read
    (src/data/students.ts, courses.ts, teachers.ts). Collection order is
    declaration order; nothing ever changes them. */
module Data {

  datatype Student = Student(
    id: nat,
    name: string,
    email: string,
    major: string,
    enrollmentDate: string,
    courses: nat)

  datatype Course = Course(
    id: nat,
    code: string,
    title: string,
    description: string,
    credits: nat,
    department: string,
    students: nat)

  datatype Teacher = Teacher(
    id: nat,
    name: string,
    email: string,
    department: string,
    office: string,
    role: string)

  /** The three collections the tools read. The handlers take them as a
      value, so that what is proved about a handler holds for any records. */
  datatype Campus = Campus(students: seq<Student>, courses: seq<Course>, teachers: seq<Teacher>)

  /** Contoso University's records, the ones the assistant runs on. */
  const University: Campus := Campus(Students, Courses, Teachers)

  const Students: seq<Student> := [
    Student(1, "Emma Johnson", "emma.johnson@contoso.edu", "Computer Science", "2024-09-01", 4),
    Student(2, "Liam Williams", "liam.williams@contoso.edu", "Mathematics", "2024-09-01", 3),
    Student(3, "Olivia Brown", "olivia.brown@contoso.edu", "Business Administration", "2024-01-15", 3),
    Student(4, "Noah Davis", "noah.davis@contoso.edu", "Engineering", "2024-01-15", 2),
    Student(5, "Ava Miller", "ava.miller@contoso.edu", "Computer Science", "2023-09-01", 4),
    Student(6, "Ethan Wilson", "ethan.wilson@contoso.edu", "Physics", "2023-09-01", 2)
  ]

  const Courses: seq<Course> := [
    Course(1, "CS101", "Introduction to Programming",
      "Learn the fundamentals of programming using modern languages and tools.", 3, "Computer Science", 45),
    Course(2, "CS201", "Data Structures & Algorithms",
      "Study fundamental data structures and algorithm design techniques.", 4, "Computer Science", 32),
    Course(3, "CS301", "Software Engineering",
      "Learn software development methodologies, design patterns, and best practices.", 3, "Computer Science", 28),
    Course(4, "MATH101", "Calculus I",
      "Introduction to differential and integral calculus with applications.", 4, "Mathematics", 55),
    Course(5, "MATH201", "Linear Algebra",
      "Study of vector spaces, matrices, and linear transformations.", 3, "Mathematics", 38),
    Course(6, "BUS101", "Introduction to Business",
      "Overview of business principles, management, and organizational behavior.", 3, "Business", 60),
    Course(7, "ENG101", "Engineering Fundamentals",
      "Introduction to engineering principles, problem-solving, and design thinking.", 4, "Engineering", 42),
    Course(8, "PHYS201", "Physics II: Electromagnetism",
      "Study of electric and magnetic fields, circuits, and electromagnetic waves.", 4, "Physics", 25)
  ]

  const Teachers: seq<Teacher> := [
    Teacher(1, "Dr. Sarah Anderson", "s.anderson@contoso.edu", "Computer Science", "Room 301", "Department Head"),
    Teacher(2, "Prof. Michael Chen", "m.chen@contoso.edu", "Mathematics", "Room 205", "Senior Professor"),
    Teacher(3, "Dr. Jennifer Martinez", "j.martinez@contoso.edu", "Business", "Room 412", "Associate Professor"),
    Teacher(4, "Prof. David Thompson", "d.thompson@contoso.edu", "Engineering", "Room 108", "Professor"),
    Teacher(5, "Dr. Lisa Roberts", "l.roberts@contoso.edu", "Physics", "Room 503", "Assistant Professor"),
    Teacher(6, "Prof. James Taylor", "j.taylor@contoso.edu", "Computer Science", "Room 302", "Professor")
  ]
}

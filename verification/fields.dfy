/**
  The two constant tables of `fields.js`: the taxonomy of innovation fields,
  keyed by field identifier, and the seed ideas shown in the community feed.
  Neither is changed at run time.
 */
module Fields {

  datatype Subcategory = Subcategory(id: string, name: string)

  datatype Field = Field(id: string, name: string, description: string, icon: string, subcategories: seq<Subcategory>)

  /**
    A seed idea. `field` and `subcategory` are display names, not keys into the
    taxonomy; `date` is the ISO text the feed parses when sorting by date.
   */
  datatype Idea = Idea(
    id: int,
    title: string,
    field: string,
    subcategory: string,
    problemStatement: string,
    approach: string,
    solution: string,
    author: string,
    date: string,
    upvotes: int,
    status: string)

  /** The statuses the seed data uses and the feed gives a colour of its own. */
  const Implemented := "Implemented"
  const UnderDevelopment := "Under Development"
  const InReview := "In Review"

  const TechField := Field(
    "tech", "Technology",
    "Digital innovations, software solutions, and tech advancements",
    "\U{1F4BB}",
    [
      Subcategory("ai-ml", "Artificial Intelligence & Machine Learning"),
      Subcategory("mobile-apps", "Mobile Applications"),
      Subcategory("web-development", "Web Development"),
      Subcategory("iot", "Internet of Things (IoT)"),
      Subcategory("blockchain", "Blockchain & Cryptocurrency"),
      Subcategory("cybersecurity", "Cybersecurity"),
      Subcategory("data-science", "Data Science & Analytics"),
      Subcategory("robotics", "Robotics & Automation")
    ])

  const TransportField := Field(
    "transport", "Transportation",
    "Mobility solutions, logistics, and transportation innovations",
    "\U{1F697}",
    [
      Subcategory("electric-vehicles", "Electric Vehicles"),
      Subcategory("public-transport", "Public Transportation"),
      Subcategory("logistics", "Logistics & Supply Chain"),
      Subcategory("sustainable-mobility", "Sustainable Mobility"),
      Subcategory("smart-traffic", "Smart Traffic Management"),
      Subcategory("last-mile", "Last Mile Delivery")
    ])

  const BusinessField := Field(
    "business", "Business & Entrepreneurship",
    "Business models, startup ideas, and entrepreneurial ventures",
    "\U{1F4BC}",
    [
      Subcategory("fintech", "Financial Technology"),
      Subcategory("ecommerce", "E-commerce & Retail"),
      Subcategory("saas", "Software as a Service (SaaS)"),
      Subcategory("marketplace", "Marketplace Platforms"),
      Subcategory("b2b-solutions", "B2B Solutions"),
      Subcategory("social-enterprise", "Social Enterprise")
    ])

  const CommunityField := Field(
    "community", "Community Development",
    "Social impact, community welfare, and civic innovations",
    "\U{1F91D}",
    [
      Subcategory("education", "Education & Learning"),
      Subcategory("healthcare", "Healthcare & Wellness"),
      Subcategory("agriculture", "Agriculture & Farming"),
      Subcategory("waste-management", "Waste Management"),
      Subcategory("water-conservation", "Water Conservation"),
      Subcategory("renewable-energy", "Renewable Energy")
    ])

  const RailwaysField := Field(
    "railways", "Railways & Infrastructure",
    "Railway innovations, infrastructure development, and smart cities",
    "\U{1F682}",
    [
      Subcategory("smart-stations", "Smart Railway Stations"),
      Subcategory("ticket-booking", "Ticketing & Booking Systems"),
      Subcategory("safety-systems", "Safety & Security Systems"),
      Subcategory("maintenance", "Maintenance & Operations"),
      Subcategory("passenger-experience", "Passenger Experience"),
      Subcategory("freight-logistics", "Freight & Logistics")
    ])

  const HealthcareField := Field(
    "healthcare", "Healthcare",
    "Medical innovations, health tech, and wellness solutions",
    "\U{1F3E5}",
    [
      Subcategory("telemedicine", "Telemedicine & Remote Care"),
      Subcategory("medical-devices", "Medical Devices"),
      Subcategory("health-monitoring", "Health Monitoring"),
      Subcategory("mental-health", "Mental Health"),
      Subcategory("pharmaceutical", "Pharmaceutical"),
      Subcategory("preventive-care", "Preventive Care")
    ])

  /** `innovationFields`: the taxonomy, keyed by field identifier. */
  const InnovationFields: map<string, Field> := map[
    "tech" := TechField,
    "transport" := TransportField,
    "business" := BusinessField,
    "community" := CommunityField,
    "railways" := RailwaysField,
    "healthcare" := HealthcareField
  ]

  /**
    The five entries of `mockIdeas`, one constant each. Titles and problem
    statements, the texts the feed searches, are written as concatenations of
    short literals, so that facts about them can be proved piece by piece;
    each value is exactly the string of the source.
   */
  const TrafficSignalIdea := Idea(
    1,
    "AI-Powered Traffic Signal " + "Optimization",
    "Transportation",
    "Smart Traffic Management",
    "Traffic congestion in urban areas " + "leads to increased travel time, " + "fuel consumption, and air pollution.",
    "Using machine learning algorithms to analyze real-time traffic patterns and optimize signal timing.",
    "Dynamic traffic signal system that reduces average wait time by 30% and improves traffic flow.",
    "Rajesh Kumar",
    "2024-01-15",
    45,
    InReview)

  const LandRegistryIdea := Idea(
    2,
    "Blockchain-Based Land Registry " + "System",
    "Technology",
    "Blockchain & Cryptocurrency",
    "Land disputes and fraudulent " + "property transactions are common in " + "India.",
    "Implementing blockchain technology to create tamper-proof land records.",
    "Decentralized land registry that ensures transparency and reduces property disputes.",
    "Priya Sharma",
    "2024-01-12",
    38,
    UnderDevelopment)

  const WasteCollectionIdea := Idea(
    3,
    "Smart Waste Collection System",
    "Community Development",
    "Waste Management",
    "Inefficient waste collection leads " + "to overflowing bins and unhygienic " + "conditions.",
    "IoT sensors in waste bins to monitor fill levels and optimize collection routes.",
    "Automated waste collection system that reduces collection costs by 25% and improves cleanliness.",
    "Amit Patel",
    "2024-01-10",
    52,
    Implemented)

  const RuralLearningIdea := Idea(
    4,
    "Digital Learning Platform for Rural " + "Students",
    "Community Development",
    "Education & Learning",
    "Rural students lack access to " + "quality educational resources and " + "expert teachers.",
    "Creating an offline-capable digital platform with localized content.",
    "Educational platform that works without internet and provides interactive learning modules.",
    "Sunita Devi",
    "2024-01-08",
    67,
    InReview)

  const WaterPurificationIdea := Idea(
    5,
    "Solar-Powered Water Purification " + "System",
    "Community Development",
    "Water Conservation",
    "Many rural areas lack access to " + "clean drinking water.",
    "Portable solar-powered water purification units for remote areas.",
    "Affordable water purification system that provides clean water to 100+ families per unit.",
    "Vikram Singh",
    "2024-01-05",
    41,
    UnderDevelopment)

  /** `mockIdeas`, in source order. */
  const MockIdeas: seq<Idea> := [TrafficSignalIdea, LandRegistryIdea, WasteCollectionIdea, RuralLearningIdea, WaterPurificationIdea]
}
